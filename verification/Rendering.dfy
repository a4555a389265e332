/**
 * Byte-budgeted replies: src/bots/response-template.js. Text is what a
 * JavaScript string is, a sequence of UTF-16 code units, and is measured by
 * its UTF-8 encoding (section 3 of RFC 3629), in which an unpaired surrogate
 * becomes U+FFFD.
 */
module Rendering {
  import opened Prelude

  type Unit = u: int | 0 <= u < 0x10000

  type Text = seq<Unit>

  type Byte = b: int | 0 <= b < 0x100

  // ---------------------------------------------------------------- code points and their bytes

  predicate High(u: Unit) {
    0xD800 <= u < 0xDC00
  }

  predicate Low(u: Unit) {
    0xDC00 <= u < 0xE000
  }

  /** The number of units of the first code point. */
  function Width(s: Text): nat
    requires s != []
  {
    if |s| >= 2 && High(s[0]) && Low(s[1]) then 2 else 1
  }

  /** The first code point, as it is encoded. */
  function First(s: Text): (cp: int)
    requires s != []
    ensures 0 <= cp < 0x110000 && !(0xD800 <= cp < 0xE000)
  {
    if Width(s) == 2 then
      var high: int, low: int := s[0], s[1];
      0x10000 + (high - 0xD800) * 0x400 + (low - 0xDC00)
    else if High(s[0]) || Low(s[0]) then 0xFFFD
    else s[0]
  }

  /** The octets of one code point. */
  function Encode(cp: int): (bytes: seq<Byte>)
    requires 0 <= cp < 0x110000
    ensures |bytes| == if cp < 0x80 then 1 else if cp < 0x800 then 2 else if cp < 0x10000 then 3 else 4
  {
    if cp < 0x80 then [cp]
    else if cp < 0x800 then [0xC0 + cp / 0x40, 0x80 + cp % 0x40]
    else if cp < 0x10000 then [0xE0 + cp / 0x1000, 0x80 + cp / 0x40 % 0x40, 0x80 + cp % 0x40]
    else [0xF0 + cp / 0x40000, 0x80 + cp / 0x1000 % 0x40, 0x80 + cp / 0x40 % 0x40, 0x80 + cp % 0x40]
  }

  function Utf8(s: Text): seq<Byte> {
    if s == [] then [] else Encode(First(s)) + Utf8(s[Width(s)..])
  }

  /** `Buffer.byteLength(char, 'utf8')`, from the units of one code point. */
  function CharBytes(c: Text): (n: nat)
    ensures c != [] ==> n == |Encode(First(c))|
  {
    if c == [] then 0
    else if Width(c) == 2 then 4
    else if c[0] < 0x80 then 1
    else if c[0] < 0x800 then 2
    else 3
  }

  /** The code points of a text, in the order `for (const char of str)` visits them. */
  function Chars(s: Text): seq<Text> {
    if s == [] then [] else [s[..Width(s)]] + Chars(s[Width(s)..])
  }

  function Join(chars: seq<Text>): Text {
    if chars == [] then [] else chars[0] + Join(chars[1..])
  }

  function SumBytes(chars: seq<Text>): nat {
    if chars == [] then 0 else CharBytes(chars[0]) + SumBytes(chars[1..])
  }

  /** `Buffer.byteLength(s, 'utf8')`. */
  function ByteLength(s: Text): nat {
    SumBytes(Chars(s))
  }

  lemma {:induction false} MeasuresUtf8(s: Text)
    ensures ByteLength(s) == |Utf8(s)|
    decreases |s|
  {
    if s != [] {
      MeasuresUtf8(s[Width(s)..]);
      assert First(s[..Width(s)]) == First(s);
    }
  }

  // ---------------------------------------------------------------- the encoding read back

  /** The code points of a text. */
  function CodePoints(s: Text): seq<int> {
    if s == [] then [] else [First(s)] + CodePoints(s[Width(s)..])
  }

  /** The UTF-16 units of a code point (section 2.1 of RFC 2781). */
  function Utf16(cp: int): seq<int> {
    if cp < 0x10000 then [cp] else [0xD800 + (cp - 0x10000) / 0x400, 0xDC00 + (cp - 0x10000) % 0x400]
  }

  /** A text's first code point is the one its units spell, but an unpaired surrogate is read as U+FFFD. */
  lemma FirstIsSpelled(s: Text)
    requires s != []
    ensures if Width(s) == 1 && 0xD800 <= s[0] < 0xE000 then First(s) == 0xFFFD else Utf16(First(s)) == s[..Width(s)]
    ensures Width(s) == 2 <==> |s| >= 2 && 0xD800 <= s[0] < 0xDC00 && 0xDC00 <= s[1] < 0xE000
  {
    if Width(s) == 2 {
      var high: int, low: int := s[0], s[1];
      assert First(s) - 0x10000 == (high - 0xD800) * 0x400 + (low - 0xDC00);
    }
  }

  /** How many octets a first octet announces. */
  function Announced(lead: Byte): nat {
    if lead < 0x80 then 1 else if lead < 0xE0 then 2 else if lead < 0xF0 then 3 else 4
  }

  /** The number that the bits of one to four octets spell. */
  function Spelled(octets: seq<int>): int
    requires octets != []
  {
    match |octets|
    case 1 => octets[0]
    case 2 => (octets[0] - 0xC0) * 0x40 + (octets[1] - 0x80)
    case 3 => (octets[0] - 0xE0) * 0x1000 + (octets[1] - 0x80) * 0x40 + (octets[2] - 0x80)
    case 4 =>
      (octets[0] - 0xF0) * 0x40000 + (octets[1] - 0x80) * 0x1000 + (octets[2] - 0x80) * 0x40 + (octets[3] - 0x80)
    case _ => -1
  }

  /** The octets read back. */
  function Decode(bytes: seq<Byte>): seq<int> {
    if bytes == [] || Announced(bytes[0]) > |bytes| then []
    else [Spelled(bytes[..Announced(bytes[0])])] + Decode(bytes[Announced(bytes[0])..])
  }

  lemma SplitsBySix(n: nat)
    ensures n == n / 0x40 * 0x40 + n % 0x40 && n / 0x1000 == n / 0x40 / 0x40
  {
  }

  /** A code point's first octet says how many follow, each of which starts with the bits 10, and together they spell it. */
  lemma EncodingIsRead(cp: int)
    requires 0 <= cp < 0x110000
    ensures Announced(Encode(cp)[0]) == |Encode(cp)| && Spelled(Encode(cp)) == cp
    ensures forall i | 0 < i < |Encode(cp)| :: 0x80 <= Encode(cp)[i] < 0xC0
  {
    SplitsBySix(cp);
    SplitsBySix(cp / 0x40);
    SplitsBySix(cp / 0x40 / 0x40);
    assert cp / 0x40000 == cp / 0x40 / 0x40 / 0x40;
  }

  /** Reading the octets of a text back gives its code points. */
  lemma {:induction false} DecodesUtf8(s: Text)
    ensures Decode(Utf8(s)) == CodePoints(s)
    decreases |s|
  {
    if s != [] {
      var head, tail := Encode(First(s)), Utf8(s[Width(s)..]);
      EncodingIsRead(First(s));
      DecodesUtf8(s[Width(s)..]);
      assert (head + tail)[..|head|] == head && (head + tail)[|head|..] == tail;
    }
  }

  lemma {:induction false} JoinChars(s: Text)
    ensures Join(Chars(s)) == s
    decreases |s|
  {
    if s != [] {
      JoinChars(s[Width(s)..]);
    }
  }

  lemma {:induction false} JoinAppends(chars: seq<Text>, c: Text)
    ensures Join(chars + [c]) == Join(chars) + c
    ensures SumBytes(chars + [c]) == SumBytes(chars) + CharBytes(c)
  {
    if chars == [] {
      assert chars + [c] == [c];
    } else {
      assert (chars + [c])[1..] == chars[1..] + [c];
      JoinAppends(chars[1..], c);
    }
  }

  /** Joining fewer code points gives a prefix. */
  lemma {:induction false} JoinPrefix(chars: seq<Text>, n: nat)
    requires n <= |chars|
    ensures Join(chars[..n]) <= Join(chars)
  {
    if n > 0 {
      assert chars[..n][1..] == chars[1..][..n - 1];
      JoinPrefix(chars[1..], n - 1);
    }
  }

  /** Cut between code points, a text keeps the ones before the cut. */
  lemma {:induction false} CharsOfPrefix(s: Text, n: nat)
    requires n <= |Chars(s)|
    ensures Chars(Join(Chars(s)[..n])) == Chars(s)[..n]
    decreases |s|
  {
    if n > 0 {
      var k, chars := Width(s), Chars(s);
      var rest := s[k..];
      CharsOfPrefix(rest, n - 1);
      var tail := Join(Chars(rest)[..n - 1]);
      assert chars[..n][1..] == Chars(rest)[..n - 1];
      assert Join(chars[..n]) == s[..k] + tail;
      JoinPrefix(Chars(rest), n - 1);
      JoinChars(rest);
      assert tail != [] ==> tail[0] == rest[0];
      assert Width(s[..k] + tail) == k && (s[..k] + tail)[..k] == s[..k] && (s[..k] + tail)[k..] == tail;
    }
  }

  lemma {:induction false} MoreCharsMoreBytes(chars: seq<Text>, n: nat, m: nat)
    requires n <= m <= |chars|
    ensures SumBytes(chars[..n]) <= SumBytes(chars[..m])
  {
    if n < m {
      MoreCharsMoreBytes(chars, n, m - 1);
      assert chars[..m] == chars[..m - 1] + [chars[m - 1]];
      JoinAppends(chars[..m - 1], chars[m - 1]);
    }
  }

  // ---------------------------------------------------------------- truncation

  /** The first n code points. */
  function Prefix(s: Text, n: nat): Text
    requires n <= |Chars(s)|
  {
    Join(Chars(s)[..n])
  }

  ghost predicate FitsUpTo(p: Text, s: Text, n: nat, maxBytes: int) {
    && n <= |Chars(s)| && p == Prefix(s, n)
    && (ByteLength(p) <= maxBytes || (maxBytes < 0 && n == 0))
    && forall m: nat | n < m <= |Chars(s)| :: ByteLength(Prefix(s, m)) > maxBytes
  }

  /** p is the longest prefix of whole code points that encodes within the budget. */
  ghost predicate LongestFitting(p: Text, s: Text, maxBytes: int) {
    exists n: nat :: FitsUpTo(p, s, n, maxBytes)
  }

  method TruncateToUtf8Bytes(s: Text, maxBytes: int) returns (result: Text)
    ensures LongestFitting(result, s, maxBytes)
  {
    result := [];
    var bytes, chars, i := 0, Chars(s), 0;
    while i < |chars|
      invariant i <= |chars|
      invariant result == Join(chars[..i]) && bytes == SumBytes(chars[..i])
      invariant bytes <= maxBytes || (maxBytes < 0 && i == 0)
    {
      assert chars[..i + 1] == chars[..i] + [chars[i]];
      JoinAppends(chars[..i], chars[i]);
      var charBytes := CharBytes(chars[i]);
      if bytes + charBytes > maxBytes {
        break;
      }
      result := result + chars[i];
      bytes := bytes + charBytes;
      i := i + 1;
    }
    CutHere(s, i, maxBytes);
  }

  /** Where the next code point would go over, all longer prefixes do. */
  lemma CutHere(s: Text, n: nat, maxBytes: int)
    requires n <= |Chars(s)|
    requires SumBytes(Chars(s)[..n]) <= maxBytes || (maxBytes < 0 && n == 0)
    requires n < |Chars(s)| ==> SumBytes(Chars(s)[..n + 1]) > maxBytes
    ensures FitsUpTo(Prefix(s, n), s, n, maxBytes)
  {
    CharsOfPrefix(s, n);
    forall m: nat | n < m <= |Chars(s)|
      ensures ByteLength(Prefix(s, m)) > maxBytes
    {
      CharsOfPrefix(s, m);
      MoreCharsMoreBytes(Chars(s), n + 1, m);
    }
  }

  /** There is only one, and it is the text itself when that fits. */
  lemma LongestIsUnique(p: Text, q: Text, s: Text, maxBytes: int)
    requires LongestFitting(p, s, maxBytes) && LongestFitting(q, s, maxBytes)
    ensures p == q
    ensures ByteLength(s) <= maxBytes ==> p == s
  {
    var n: nat :| FitsUpTo(p, s, n, maxBytes);
    var m: nat :| FitsUpTo(q, s, m, maxBytes);
    WholePrefix(s);
    assert n == m by {
      EmptyPrefix(s);
    }
  }

  lemma WholePrefix(s: Text)
    ensures Prefix(s, |Chars(s)|) == s
  {
    JoinChars(s);
    assert Chars(s)[..|Chars(s)|] == Chars(s);
  }

  lemma EmptyPrefix(s: Text)
    ensures Prefix(s, 0) == [] && ByteLength([]) == 0
  {
  }

  // ---------------------------------------------------------------- templates

  const OPEN: Unit := 0x7B
  const CLOSE: Unit := 0x7D

  /** `\w` */
  predicate Word(u: Unit) {
    0x30 <= u < 0x3A || 0x41 <= u < 0x5B || 0x61 <= u < 0x7B || u == 0x5F
  }

  predicate IsKey(k: Text) {
    k != [] && forall u | u in k :: Word(u)
  }

  /** The length of the run of word units a text starts with. */
  function Run(s: Text): (n: nat)
    ensures n <= |s|
  {
    if s == [] || !Word(s[0]) then 0 else 1 + Run(s[1..])
  }

  /** The length of the placeholder a text starts with, or 0; `}` is no word unit, so only a whole run can be a key. */
  function PlaceholderAt(s: Text): (n: nat)
    ensures n > 0 ==> 3 <= n <= |s|
  {
    if s == [] || s[0] != OPEN then 0
    else
      var run := Run(s[1..]);
      if run > 0 && run + 1 < |s| && s[run + 1] == CLOSE then run + 2 else 0
  }

  function Placeholder(k: Text): Text {
    [OPEN] + k + [CLOSE]
  }

  /** What a placeholder becomes; one without a value stays as it is. */
  function Fill(values: map<Text, Text>, k: Text): Text {
    if k in values then values[k] else Placeholder(k)
  }

  /** How much of a template is read at once: a placeholder, or one unit. */
  function Reads(template: Text): (n: nat)
    requires template != []
    ensures 1 <= n <= |template|
  {
    if PlaceholderAt(template) > 0 then PlaceholderAt(template) else 1
  }

  /** What is written for it. */
  function Writes(template: Text, values: map<Text, Text>): Text
    requires template != []
  {
    var n := PlaceholderAt(template);
    if n > 0 then Fill(values, template[1..n - 1]) else [template[0]]
  }

  function RenderTemplate(template: Text, values: map<Text, Text>): Text
    decreases |template|
  {
    if template == [] then []
    else Writes(template, values) + RenderTemplate(template[Reads(template)..], values)
  }

  lemma WritesItself(template: Text, values: map<Text, Text>)
    requires template != [] && forall k | k in values :: values[k] == Placeholder(k)
    ensures Writes(template, values) == template[..Reads(template)]
  {
    var n := PlaceholderAt(template);
    if n > 0 {
      assert Placeholder(template[1..n - 1]) == template[..n];
    }
  }

  lemma Rejoins(whole: Text, n: nat, head: Text, rest: Text, joined: Text)
    requires n <= |whole| && head == whole[..n] && rest == whole[n..] && joined == head + rest
    ensures joined == whole
  {
  }

  lemma RenderStep(template: Text, values: map<Text, Text>)
    requires template != []
    ensures RenderTemplate(template, values) == Writes(template, values) + RenderTemplate(template[Reads(template)..], values)
  {
  }

  /** Bound to its own placeholder, every key gives the template back. */
  lemma {:induction false} IdentityValues(template: Text, values: map<Text, Text>)
    requires forall k | k in values :: values[k] == Placeholder(k)
    ensures RenderTemplate(template, values) == template
    decreases |template|
  {
    if template != [] {
      var n, rest := Reads(template), template[Reads(template)..];
      IdentityValues(rest, values);
      WritesItself(template, values);
      RenderStep(template, values);
      Rejoins(template, n, Writes(template, values), RenderTemplate(rest, values), RenderTemplate(template, values));
    }
  }

  lemma {:induction false} RunOfKey(k: Text, rest: Text)
    requires (forall u | u in k :: Word(u)) && (rest == [] || !Word(rest[0]))
    ensures Run(k + rest) == |k|
    decreases |k|
  {
    if k == [] {
      assert k + rest == rest;
    } else {
      RunOfKey(k[1..], rest);
      assert (k + rest)[1..] == k[1..] + rest;
      assert forall u | u in k[1..] :: u in k;
    }
  }

  lemma KeyIsPlaceholder(k: Text, b: Text)
    requires IsKey(k)
    ensures PlaceholderAt(Placeholder(k) + b) == |k| + 2
  {
    var s := Placeholder(k) + b;
    assert s[1..] == k + ([CLOSE] + b);
    RunOfKey(k, [CLOSE] + b);
  }

  lemma {:induction false} RunOfWords(s: Text)
    ensures forall u | u in s[..Run(s)] :: Word(u)
    decreases |s|
  {
    if Run(s) > 0 {
      RunOfWords(s[1..]);
      assert s[..Run(s)] == [s[0]] + s[1..][..Run(s[1..])];
    }
  }

  /** A placeholder is found exactly when the text starts with one, and then the whole of it. */
  lemma FindsPlaceholder(s: Text, k: Text)
    ensures var n := PlaceholderAt(s);
            && (n > 0 ==> IsKey(s[1..n - 1]) && Placeholder(s[1..n - 1]) == s[..n])
            && (IsKey(k) && Placeholder(k) <= s ==> n == |k| + 2)
  {
    var n := PlaceholderAt(s);
    if n > 0 {
      RunOfWords(s[1..]);
      assert s[1..][..n - 2] == s[1..n - 1];
      assert Placeholder(s[1..n - 1]) == s[..n];
    }
    if IsKey(k) && Placeholder(k) <= s {
      KeyIsPlaceholder(k, s[|k| + 2..]);
      assert Placeholder(k) + s[|k| + 2..] == s;
    }
  }

  /** A placeholder cannot start in a and reach past the brace that follows it. */
  lemma {:induction false} NoneAcross(a: Text, tail: Text)
    requires a != [] && tail != [] && tail[0] == OPEN
    ensures PlaceholderAt(a + tail) == PlaceholderAt(a)
  {
    if a[0] == OPEN {
      assert (a + tail)[1..] == a[1..] + tail;
      RunStops(a[1..], tail);
    }
  }

  lemma {:induction false} RunStops(a: Text, tail: Text)
    requires tail != [] && !Word(tail[0])
    ensures Run(a + tail) == Run(a)
    decreases |a|
  {
    if a == [] {
      assert a + tail == tail;
    } else {
      assert (a + tail)[1..] == a[1..] + tail;
      RunStops(a[1..], tail);
    }
  }

  /** What follows an opening brace changes nothing of what is read before it. */
  lemma Slide(a: Text, tail: Text, values: map<Text, Text>)
    requires a != [] && tail != [] && tail[0] == OPEN
    ensures Reads(a + tail) == Reads(a) && Writes(a + tail, values) == Writes(a, values)
  {
    NoneAcross(a, tail);
    var n := PlaceholderAt(a);
    if n > 0 {
      assert (a + tail)[1..n - 1] == a[1..n - 1];
    }
  }

  lemma DropsWithin(a: Text, tail: Text, n: nat)
    requires n <= |a|
    ensures (a + tail)[n..] == a[n..] + tail
  {
  }

  lemma SlideStep(a: Text, tail: Text, values: map<Text, Text>)
    requires a != [] && tail != [] && tail[0] == OPEN
    ensures RenderTemplate(a + tail, values) == Writes(a, values) + RenderTemplate(a[Reads(a)..] + tail, values)
  {
    Slide(a, tail, values);
    DropsWithin(a, tail, Reads(a));
  }

  lemma Regroup(whole: Text, ab: Text, bc: Text, a: Text, b: Text, c: Text)
    requires whole == a + bc && ab == a + b && bc == b + c
    ensures whole == ab + c
  {
  }

  /** The text a and one that opens a brace are rendered apart. */
  ghost predicate Apart(a: Text, tail: Text, values: map<Text, Text>) {
    RenderTemplate(a + tail, values) == RenderTemplate(a, values) + RenderTemplate(tail, values)
  }

  lemma NothingIsApart(tail: Text, values: map<Text, Text>)
    ensures Apart([], tail, values)
  {
    assert [] + tail == tail;
  }

  lemma ApartStep(a: Text, tail: Text, values: map<Text, Text>)
    requires a != [] && tail != [] && tail[0] == OPEN
    requires Apart(a[Reads(a)..], tail, values)
    ensures Apart(a, tail, values)
  {
    var rest := a[Reads(a)..];
    SlideStep(a, tail, values);
    Regroup(RenderTemplate(a + tail, values), RenderTemplate(a, values), RenderTemplate(rest + tail, values),
            Writes(a, values), RenderTemplate(rest, values), RenderTemplate(tail, values));
  }

  /** Rendering starts afresh at every opening brace. */
  lemma {:induction false} RenderSplits(a: Text, tail: Text, values: map<Text, Text>)
    requires tail != [] && tail[0] == OPEN
    ensures Apart(a, tail, values)
    decreases |a|
  {
    if a == [] {
      NothingIsApart(tail, values);
    } else {
      RenderSplits(a[Reads(a)..], tail, values);
      ApartStep(a, tail, values);
    }
  }

  lemma KeyIsRead(k: Text, b: Text, values: map<Text, Text>)
    requires IsKey(k)
    ensures Reads(Placeholder(k) + b) == |k| + 2 && Writes(Placeholder(k) + b, values) == Fill(values, k)
  {
    KeyIsPlaceholder(k, b);
    assert (Placeholder(k) + b)[1..|k| + 1] == k;
  }

  lemma KeyIsFilled(k: Text, b: Text, values: map<Text, Text>)
    requires IsKey(k)
    ensures RenderTemplate(Placeholder(k) + b, values) == Fill(values, k) + RenderTemplate(b, values)
  {
    KeyIsRead(k, b, values);
    RenderStep(Placeholder(k) + b, values);
    assert (Placeholder(k) + b)[|k| + 2..] == b;
  }

  /** One pass: a placeholder becomes its value wherever it stands, and the value is not looked at again. */
  lemma RenderIsSinglePass(a: Text, k: Text, b: Text, values: map<Text, Text>)
    requires IsKey(k)
    ensures RenderTemplate(a + (Placeholder(k) + b), values)
            == RenderTemplate(a, values) + ((if k in values then values[k] else Placeholder(k)) + RenderTemplate(b, values))
  {
    RenderSplits(a, Placeholder(k) + b, values);
    KeyIsFilled(k, b, values);
  }

  /** Text without an opening brace is literal. */
  lemma {:induction false} LiteralText(template: Text, values: map<Text, Text>)
    requires OPEN !in template
    ensures RenderTemplate(template, values) == template
    decreases |template|
  {
    if template != [] {
      var rest := template[1..];
      assert Reads(template) == 1 && Writes(template, values) == template[..1] by {
        assert template[0] in template;
      }
      LiteralText(rest, values);
      RenderStep(template, values);
      Rejoins(template, 1, Writes(template, values), RenderTemplate(rest, values), RenderTemplate(template, values));
    }
  }

  // ---------------------------------------------------------------- responses

  const DEFAULT_MAX_MESSAGE_BYTES := 120

  const PATH: Text := [0x70, 0x61, 0x74, 0x68]

  /**
   * The text a response that does not fit is cut from: the overflow template's, else the one without the path, else
   * itself.
   */
  function Fallback(template: Text, overflowTemplate: Option<Text>, values: map<Text, Text>): Text {
    if overflowTemplate.Some? && overflowTemplate.value != [] then RenderTemplate(overflowTemplate.value, values)
    else if PATH in values && values[PATH] != [] then RenderTemplate(template, values[PATH := []])
    else RenderTemplate(template, values)
  }

  /** A key is spelled in unaccented letters, digits and underscores, and the path's key is `path`. */
  lemma KeysAreSpelled(u: Unit)
    ensures Word(u) <==> || 'a' as int <= u <= 'z' as int || 'A' as int <= u <= 'Z' as int
                         || '0' as int <= u <= '9' as int || u == '_' as int
    ensures |PATH| == |"path"| && forall i | 0 <= i < |PATH| :: PATH[i] == "path"[i] as int
    ensures OPEN == '{' as int && CLOSE == '}' as int
  {
  }

  /** Which text is cut: the overflow template's when there is one, else the one whose path is blank, else the whole. */
  lemma FallbackIsChosen(template: Text, overflowTemplate: Option<Text>, values: map<Text, Text>)
    ensures var short := overflowTemplate.Some? && overflowTemplate.value != [];
            var path := PATH in values && values[PATH] != [];
            && (short ==> Fallback(template, overflowTemplate, values) == RenderTemplate(overflowTemplate.value, values))
            && (!short && path ==>
                  Fallback(template, overflowTemplate, values)
                  == RenderTemplate(template, map k | k in values :: if k == PATH then [] else values[k]))
            && (!short && !path ==> Fallback(template, overflowTemplate, values) == RenderTemplate(template, values))
  {
    if PATH in values {
      assert values[PATH := []] == map k | k in values :: if k == PATH then [] else values[k];
    }
  }

  /** Within the budget, undegraded exactly when the whole response fits, and else as much of the fallback as fits. */
  method RenderResponse(template: Text, overflowTemplate: Option<Text>, values: map<Text, Text>,
                        maxBytes: int := DEFAULT_MAX_MESSAGE_BYTES)
    returns (message: Text, degraded: bool)
    ensures maxBytes >= 0 ==> ByteLength(message) <= maxBytes
    ensures degraded <==> ByteLength(RenderTemplate(template, values)) > maxBytes
    ensures !degraded ==> message == RenderTemplate(template, values)
    ensures degraded ==> LongestFitting(message, Fallback(template, overflowTemplate, values), maxBytes)
  {
    var full := RenderTemplate(template, values);
    if ByteLength(full) <= maxBytes {
      return full, false;
    }
    degraded := true;
    if overflowTemplate.Some? && overflowTemplate.value != [] {
      var overflow := RenderTemplate(overflowTemplate.value, values);
      if ByteLength(overflow) <= maxBytes {
        FittingIsLongest(overflow, maxBytes);
        return overflow, true;
      }
      message := TruncateToUtf8Bytes(overflow, maxBytes);
      return;
    }
    if PATH in values && values[PATH] != [] {
      var withoutPath := RenderTemplate(template, values[PATH := []]);
      if ByteLength(withoutPath) <= maxBytes {
        FittingIsLongest(withoutPath, maxBytes);
        return withoutPath, true;
      }
      message := TruncateToUtf8Bytes(withoutPath, maxBytes);
      return;
    }
    message := TruncateToUtf8Bytes(full, maxBytes);
  }

  lemma FittingIsLongest(s: Text, maxBytes: int)
    requires ByteLength(s) <= maxBytes
    ensures LongestFitting(s, s, maxBytes)
  {
    WholePrefix(s);
    assert FitsUpTo(s, s, |Chars(s)|, maxBytes);
  }
}
