/**
 Strings in term_gui/json.lua. A Lua string is a sequence of bytes; here one `char` stands for one
 byte. Positions count from 0 where Lua counts from 1.
 */
module JsonStrings {
  import opened Wrappers
  import opened Sequences

  /** What a `grok` function returns: the value and the position behind it. */
  datatype Parse<T> = Parse(value: T, next: nat)

  datatype DecodeError =
    | UnexpectedEnd
    | CannotParse
    | ExpectedNumber
    | ExpectedQuote
    | UnclosedString
    | ExpectedColon
    | ExpectedCommaOrBrace
    | ExpectedCommaOrBracket
    | UnclosedBrace
    | UnclosedBracket
    | LuaError
    | Html
    | NotUtf8

  // ---------- Text ----------

  /** `s` stands in `text` at position `i`. */
  predicate At(text: string, i: nat, s: string)
    decreases |s|
  {
    if s == "" then i <= |text| else i < |text| && text[i] == s[0] && At(text, i + 1, s[1..])
  }

  lemma {:induction false} AtConcat(text: string, i: nat, a: string, b: string)
    ensures At(text, i, a + b) <==> At(text, i, a) && At(text, i + |a|, b)
    decreases |a|
  {
    if a == "" {
      assert a + b == b;
      if At(text, i, b) {
        AtBound(text, i, b);
      }
    } else {
      assert (a + b)[1..] == a[1..] + b;
      AtConcat(text, i + 1, a[1..], b);
    }
  }

  lemma {:induction false} AtBound(text: string, i: nat, s: string)
    requires At(text, i, s)
    ensures i + |s| <= |text|
    decreases |s|
  {
    if s != "" {
      AtBound(text, i + 1, s[1..]);
    }
  }

  lemma {:induction false} AtIndex(text: string, i: nat, s: string, k: nat)
    requires At(text, i, s) && k < |s|
    ensures i + k < |text| && text[i + k] == s[k]
    decreases |s|
  {
    if k > 0 {
      AtIndex(text, i + 1, s[1..], k - 1);
    }
  }

  lemma {:induction false} AtWhole(front: string, s: string, back: string)
    ensures At(front + s + back, |front|, s)
    decreases |s|
  {
    if s != "" {
      assert front + s + back == (front + [s[0]]) + s[1..] + back;
      AtWhole(front + [s[0]], s[1..], back);
    }
  }

  // ---------- Hexadecimal digits ----------

  predicate IsHex(c: char) {
    '0' <= c <= '9' || 'a' <= c <= 'f' || 'A' <= c <= 'F'
  }

  function HexValue(c: char): (n: nat)
    requires IsHex(c)
    ensures n < 16
  {
    if c <= '9' then c as int - '0' as int
    else if c <= 'F' then c as int - 'A' as int + 10
    else c as int - 'a' as int + 10
  }

  function HexDigit(n: nat): (c: char)
    requires n < 16
    ensures IsHex(c) && HexValue(c) == n
  {
    if n < 10 then ('0' as int + n) as char else ('a' as int + n - 10) as char
  }

  /** `s` is the escape `\uXXXX` of `n`, in any letter case. */
  predicate HexEscape(s: string, n: nat) {
    && |s| == 6 && s[0] == '\\' && s[1] == 'u'
    && (forall k :: 2 <= k < 6 ==> IsHex(s[k]))
    && n == HexValue(s[2]) * 0x1000 + HexValue(s[3]) * 0x100 + HexValue(s[4]) * 0x10 + HexValue(s[5])
  }

  /** The number of a `\uXXXX` at position `i`. */
  function HexAt(text: string, i: nat): (n: Option<nat>)
    ensures n.Some? ==> i + 6 <= |text| && HexEscape(text[i..i + 6], n.value)
  {
    if i + 6 <= |text| && text[i] == '\\' && text[i + 1] == 'u'
       && IsHex(text[i + 2]) && IsHex(text[i + 3]) && IsHex(text[i + 4]) && IsHex(text[i + 5])
    then Some(HexValue(text[i + 2]) * 0x1000 + HexValue(text[i + 3]) * 0x100
              + HexValue(text[i + 4]) * 0x10 + HexValue(text[i + 5]))
    else None
  }

  /** The number of an escaped low surrogate at position `i`. */
  function LowSurrogateAt(text: string, i: nat): Option<nat> {
    match HexAt(text, i)
    case Some(n) => if 0xDC00 <= n <= 0xDFFF then Some(n) else None
    case None => None
  }

  // ---------- UTF-8 ----------

  function Char(n: nat): (c: char)
    requires n < 0x100
    ensures c as int == n
  {
    n as char
  }

  /** `unicode_codepoint_as_utf8`, on the numbers two escapes can denote. */
  function UnicodeCodepointAsUtf8(codepoint: nat): string
    requires codepoint <= 0x10FFFF
  {
    if codepoint <= 127 then
      [Char(codepoint)]
    else if codepoint <= 2047 then
      var highpart := codepoint / 0x40;
      var lowpart := codepoint - 0x40 * highpart;
      [Char(0xC0 + highpart), Char(0x80 + lowpart)]
    else if codepoint <= 65535 then
      var highpart := codepoint / 0x1000;
      var remainder := codepoint - 0x1000 * highpart;
      var midpart := remainder / 0x40;
      var lowpart := remainder - 0x40 * midpart;
      ThreeBytes(0xE0 + highpart, 0x80 + midpart, 0x80 + lowpart)
    else
      var highpart := codepoint / 0x40000;
      var remainder := codepoint - 0x40000 * highpart;
      var midA := remainder / 0x1000;
      var remainder' := remainder - 0x1000 * midA;
      var midB := remainder' / 0x40;
      var lowpart := remainder' - 0x40 * midB;
      [Char(0xF0 + highpart), Char(0x80 + midA), Char(0x80 + midB), Char(0x80 + lowpart)]
  }

  function ThreeBytes(high: nat, mid: nat, low: nat): string
    requires high < 0x100 && mid < 0x100 && low < 0x100
  {
    if (high == 0xE0 && mid < 0xA0) || (high == 0xED && mid > 0x9F)
       || (high == 0xF0 && mid < 0x90) || (high == 0xF4 && mid > 0x8F)
    then "?"
    else [Char(high), Char(mid), Char(low)]
  }

  // The reference: the octet sequences of section 4 of RFC 3629, and the numbers they denote by
  // the table of its section 3.

  predicate Surrogate(n: nat) { 0xD800 <= n <= 0xDFFF }

  type Scalar = n: nat | n < 0xD800 || 0xDFFF < n <= 0x10FFFF

  predicate IsScalar(n: int) { 0 <= n < 0xD800 || 0xDFFF < n <= 0x10FFFF }

  predicate Octet(c: char, low: nat, high: nat) { low <= c as int <= high }

  predicate Tail(c: char) { Octet(c, 0x80, 0xBF) }

  predicate WellFormedUtf8(s: string) {
    || (|s| == 1 && Octet(s[0], 0x00, 0x7F))
    || (|s| == 2 && Octet(s[0], 0xC2, 0xDF) && Tail(s[1]))
    || (|s| == 3 && WellFormedThree(s))
    || (|s| == 4 && WellFormedFour(s))
  }

  predicate WellFormedThree(s: string)
    requires |s| == 3
  {
    && Tail(s[2])
    && (|| (Octet(s[0], 0xE0, 0xE0) && Octet(s[1], 0xA0, 0xBF))
        || (Octet(s[0], 0xE1, 0xEC) && Tail(s[1]))
        || (Octet(s[0], 0xED, 0xED) && Octet(s[1], 0x80, 0x9F))
        || (Octet(s[0], 0xEE, 0xEF) && Tail(s[1])))
  }

  predicate WellFormedFour(s: string)
    requires |s| == 4
  {
    && Tail(s[2]) && Tail(s[3])
    && (|| (Octet(s[0], 0xF0, 0xF0) && Octet(s[1], 0x90, 0xBF))
        || (Octet(s[0], 0xF1, 0xF3) && Tail(s[1]))
        || (Octet(s[0], 0xF4, 0xF4) && Octet(s[1], 0x80, 0x8F)))
  }

  function Denoted(s: string): int
    requires WellFormedUtf8(s)
  {
    match |s|
    case 1 => s[0] as int
    case 2 => (s[0] as int - 0xC0) * 0x40 + (s[1] as int - 0x80)
    case 3 => (s[0] as int - 0xE0) * 0x1000 + (s[1] as int - 0x80) * 0x40 + (s[2] as int - 0x80)
    case _ => (s[0] as int - 0xF0) * 0x40000 + (s[1] as int - 0x80) * 0x1000
              + (s[2] as int - 0x80) * 0x40 + (s[3] as int - 0x80)
  }

  /** Every Unicode scalar value is written as the octets RFC 3629 gives it, and a surrogate as a
      question mark. */
  lemma Utf8IsWellFormed(codepoint: nat)
    requires codepoint <= 0x10FFFF
    ensures IsScalar(codepoint) ==>
              WellFormedUtf8(UnicodeCodepointAsUtf8(codepoint)) &&
                  Denoted(UnicodeCodepointAsUtf8(codepoint)) == codepoint
    ensures Surrogate(codepoint) ==> UnicodeCodepointAsUtf8(codepoint) == "?"
  {
    if codepoint > 65535 {
      FourIsWellFormed(codepoint);
    } else if codepoint > 2047 {
      ThreeIsWellFormed(codepoint);
    }
  }

  lemma ThreeIsWellFormed(codepoint: nat)
    requires 2047 < codepoint <= 65535
    ensures if Surrogate(codepoint) then UnicodeCodepointAsUtf8(codepoint) == "?"
            else var s := UnicodeCodepointAsUtf8(codepoint); |s| == 3 && WellFormedThree(s) && Denoted(s) == codepoint
  {
    var highpart := codepoint / 0x1000;
    var midpart := (codepoint - 0x1000 * highpart) / 0x40;
    assert codepoint == 0x1000 * highpart + 0x40 * midpart + (codepoint - 0x1000 * highpart - 0x40 * midpart);
  }

  lemma FourIsWellFormed(codepoint: nat)
    requires 65535 < codepoint <= 0x10FFFF
    ensures var s := UnicodeCodepointAsUtf8(codepoint); |s| == 4 && WellFormedFour(s) && Denoted(s) == codepoint
  {
  }

  /** Those octets are the only ones: a well-formed sequence is the encoding of what it denotes. */
  lemma Utf8IsUnique(s: string)
    requires WellFormedUtf8(s)
    ensures IsScalar(Denoted(s)) && UnicodeCodepointAsUtf8(Denoted(s)) == s
  {
    match |s|
    case 3 => ThreeIsUnique(s);
    case 4 => FourIsUnique(s);
    case _ =>
  }

  lemma ThreeIsUnique(s: string)
    requires |s| == 3 && WellFormedThree(s)
    ensures var n := Denoted(s); IsScalar(n) && UnicodeCodepointAsUtf8(n) == s
  {
    var n := Denoted(s);
    assert n / 0x1000 == s[0] as int - 0xE0;
    assert (n - 0x1000 * (n / 0x1000)) / 0x40 == s[1] as int - 0x80;
  }

  lemma FourIsUnique(s: string)
    requires |s| == 4 && WellFormedFour(s)
    ensures var n := Denoted(s); IsScalar(n) && UnicodeCodepointAsUtf8(n) == s
  {
    var n := Denoted(s);
    assert n / 0x40000 == s[0] as int - 0xF0;
    var r := n - 0x40000 * (n / 0x40000);
    assert r / 0x1000 == s[1] as int - 0x80;
    assert (r - 0x1000 * (r / 0x1000)) / 0x40 == s[2] as int - 0x80;
  }

  // ---------- Writing a string ----------

  function Backslashed(c: char): string {
    if c == '\n' then "\\n"
    else if c == '\r' then "\\r"
    else if c == '\t' then "\\t"
    else if c == '\U{8}' then "\\b"
    else if c == '\U{c}' then "\\f"
    else if c == '"' then "\\\""
    else if c == '\\' then "\\\\"
    else if c as int < 0x100 then ['\\', 'u', '0', '0', HexDigit(c as int / 16), HexDigit(c as int % 16)]
    else [c]
  }

  predicate ToBeEscaped(c: char) { c == '"' || c == '\\' || c as int < 32 }

  function Escaped(c: char): string {
    if ToBeEscaped(c) then Backslashed(c) else [c]
  }

  function EscapedAll(s: string): string {
    if s == "" then "" else Escaped(s[0]) + EscapedAll(s[1..])
  }

  function JsonStringLiteral(s: string): string {
    "\"" + EscapedAll(s) + "\""
  }

  // ---------- Reading a string ----------

  /** One round of the loop of `grok_string` at a position that holds no closing quote: what is
      added to the value and the position reached. */
  function StringStep(text: string, i: nat): (r: Result<Parse<string>, DecodeError>)
    requires i < |text|
    ensures r.Success? ==> i < r.value.next <= |text|
  {
    if text[i] != '\\' then Success(Parse([text[i]], i + 1))
    else if i + 1 == |text| then Failure(LuaError)
    else if text[i + 1] == 'b' then Success(Parse("\U{8}", i + 2))
    else if text[i + 1] == 'f' then Success(Parse("\U{c}", i + 2))
    else if text[i + 1] == 'n' then Success(Parse("\n", i + 2))
    else if text[i + 1] == 'r' then Success(Parse("\r", i + 2))
    else if text[i + 1] == 't' then Success(Parse("\t", i + 2))
    else match HexAt(text, i)
      case Some(codepoint) =>
        (match LowSurrogateAt(text, i + 6)
         case Some(low) =>
           if 0xD800 <= codepoint <= 0xDBFF
           then Success(Parse(UnicodeCodepointAsUtf8(0x2400 + (codepoint - 0xD800) * 0x400 + low), i + 12))
           else Success(Parse(UnicodeCodepointAsUtf8(codepoint), i + 6))
         case None => Success(Parse(UnicodeCodepointAsUtf8(codepoint), i + 6)))
      case None => Success(Parse([text[i + 1]], i + 2))
  }

  function StringFrom(text: string, i: nat, value: string): (r: Result<Parse<string>, DecodeError>)
    ensures r.Success? ==> i < r.value.next <= |text|
    decreases |text| - i
  {
    if i >= |text| then Failure(UnclosedString)
    else if text[i] == '"' then Success(Parse(value, i + 1))
    else match StringStep(text, i)
      case Success(step) => StringFrom(text, step.next, value + step.value)
      case Failure(e) => Failure(e)
  }

  function StringAt(text: string, start: nat): (r: Result<Parse<string>, DecodeError>)
    ensures r.Success? ==> start < r.value.next <= |text|
  {
    if start < |text| && text[start] == '"' then StringFrom(text, start + 1, "") else Failure(ExpectedQuote)
  }

  /** The loop of `grok_string`. */
  method GrokString(text: string, start: nat) returns (r: Result<Parse<string>, DecodeError>)
    ensures r == StringAt(text, start)
  {
    if !(start < |text| && text[start] == '"') {
      return Failure(ExpectedQuote);
    }
    var i := start + 1;
    var value := "";
    while i < |text|
      invariant start < i <= |text|
      invariant StringFrom(text, i, value) == StringAt(text, start)
    {
      if text[i] == '"' {
        return Success(Parse(value, i + 1));
      }
      match StringStep(text, i)
      case Success(step) =>
        value := value + step.value;
        i := step.next;
      case Failure(e) => return Failure(e);
    }
    return Failure(UnclosedString);
  }

  lemma StringFromStep(text: string, i: nat, part: string, next: nat, value: string)
    requires i < |text| && text[i] != '"' && StringStep(text, i) == Success(Parse(part, next))
    ensures StringFrom(text, i, value) == StringFrom(text, next, value + part)
  {
  }

  lemma StringFromQuote(text: string, i: nat, value: string)
    requires At(text, i, "\"")
    ensures StringFrom(text, i, value) == Success(Parse(value, i + 1))
  {
  }

  /** Text in front of a quote, cut at its first part. */
  lemma AtFirst(text: string, i: nat, first: string, rest: string)
    requires At(text, i, (first + rest) + "\"")
    ensures At(text, i, first) && At(text, i + |first|, rest + "\"")
  {
    assert (first + rest) + "\"" == first + (rest + "\"");
    AtConcat(text, i, first, rest + "\"");
  }

  // ---------- Reading inverts writing ----------

  lemma EscapedStep(text: string, i: nat, c: char)
    requires At(text, i, Escaped(c))
    ensures i < |text| && text[i] != '"'
    ensures StringStep(text, i) == Success(Parse([c], i + |Escaped(c)|))
  {
    var e := Escaped(c);
    forall k | 0 <= k < |e| ensures i + k < |text| && text[i + k] == e[k] {
      AtIndex(text, i, e, k);
    }
    if |e| == 6 {
      var n := c as int;
      assert n == n / 16 * 16 + n % 16;
      assert HexEscape(e, n);
      HexEscapeAt(text, i, e, n);
      assert UnicodeCodepointAsUtf8(n) == [c];
    }
  }

  lemma Regrouped(value: string, s: string)
    requires s != ""
    ensures (value + [s[0]]) + s[1..] == value + s
  {
  }

  lemma EscapedFrom(text: string, i: nat, c: char, rest: string, value: string)
    requires At(text, i, (Escaped(c) + rest) + "\"")
    ensures StringFrom(text, i, value) == StringFrom(text, i + |Escaped(c)|, value + [c])
    ensures At(text, i + |Escaped(c)|, rest + "\"")
  {
    AtFirst(text, i, Escaped(c), rest);
    EscapedStep(text, i, c);
    StringFromStep(text, i, [c], i + |Escaped(c)|, value);
  }

  lemma {:induction false} StringFromInverts(text: string, i: nat, s: string, value: string)
    requires At(text, i, EscapedAll(s) + "\"")
    ensures StringFrom(text, i, value) == Success(Parse(value + s, i + |EscapedAll(s)| + 1))
    decreases |s|
  {
    hide StringStep, Escaped;
    if s == "" {
      StringFromQuote(text, i, value);
      assert value + s == value;
    } else {
      EscapedFrom(text, i, s[0], EscapedAll(s[1..]), value);
      StringFromInverts(text, i + |Escaped(s[0])|, s[1..], value + [s[0]]);
      Regrouped(value, s);
    }
  }

  /** `grok_string` inverts `json_string_literal` on every string, wherever the literal stands. */
  lemma StringRoundTrip(text: string, i: nat, s: string)
    requires At(text, i, JsonStringLiteral(s))
    ensures i < |text| && text[i] == '"'
    ensures StringAt(text, i) == Success(Parse(s, i + |JsonStringLiteral(s)|))
  {
    assert JsonStringLiteral(s) == "\"" + (EscapedAll(s) + "\"");
    AtConcat(text, i, "\"", EscapedAll(s) + "\"");
    StringFromInverts(text, i + 1, s, "");
    assert "" + s == s;
  }

  /** A literal holds no raw control character, as section 7 of RFC 8259 demands. */
  lemma {:induction false} LiteralHasNoControls(s: string)
    ensures forall c :: c in EscapedAll(s) ==> c as int >= 32
  {
    if s != "" {
      LiteralHasNoControls(s[1..]);
    }
  }

  // ---------- Escaped code points ----------

  function HighSurrogate(codepoint: nat): nat
    requires 0x10000 <= codepoint
  {
    0xD800 + (codepoint - 0x10000) / 0x400
  }

  function LowSurrogate(codepoint: nat): nat
    requires 0x10000 <= codepoint
  {
    0xDC00 + (codepoint - 0x10000) % 0x400
  }

  /** `s` escapes the scalar value as section 7 of RFC 8259 has it: one `\uXXXX`, or two that form
      a surrogate pair. */
  predicate EscapeOf(s: string, scalar: Scalar) {
    if scalar < 0x10000 then HexEscape(s, scalar)
    else |s| == 12 && HexEscape(s[..6], HighSurrogate(scalar)) && HexEscape(s[6..], LowSurrogate(scalar))
  }

  lemma HexEscapeAt(text: string, i: nat, s: string, n: nat)
    requires At(text, i, s) && HexEscape(s, n)
    ensures |s| == 6 && i + 6 <= |text| && text[i] == '\\' && text[i + 1] == 'u' && HexAt(text, i) == Some(n)
  {
    forall k | 0 <= k < 6 ensures i + k < |text| && text[i + k] == s[k] {
      AtIndex(text, i, s, k);
    }
  }

  /** One round of the loop reads an escaped scalar value, whatever the case of its digits and
      whatever follows it, and adds its UTF-8 octets. */
  lemma EscapedScalarStep(text: string, i: nat, s: string, scalar: Scalar)
    requires At(text, i, s) && EscapeOf(s, scalar)
    ensures i < |text| && text[i] != '"'
    ensures StringStep(text, i) == Success(Parse(UnicodeCodepointAsUtf8(scalar), i + |s|))
  {
    hide UnicodeCodepointAsUtf8, HexAt, HexEscape, HighSurrogate, LowSurrogate;
    if scalar < 0x10000 {
      HexEscapeAt(text, i, s, scalar);
    } else {
      PairAt(text, i, s, scalar);
      PairDenotes(scalar);
    }
  }

  lemma PairAt(text: string, i: nat, s: string, scalar: Scalar)
    requires At(text, i, s) && EscapeOf(s, scalar) && 0x10000 <= scalar
    ensures i + 12 <= |text| && text[i] == '\\' && text[i + 1] == 'u'
    ensures HexAt(text, i) == Some(HighSurrogate(scalar)) && HexAt(text, i + 6) == Some(LowSurrogate(scalar))
  {
    assert s == s[..6] + s[6..];
    AtConcat(text, i, s[..6], s[6..]);
    HexEscapeAt(text, i, s[..6], HighSurrogate(scalar));
    HexEscapeAt(text, i + 6, s[6..], LowSurrogate(scalar));
  }

  lemma PairDenotes(scalar: Scalar)
    requires 0x10000 <= scalar
    ensures 0xD800 <= HighSurrogate(scalar) <= 0xDBFF && 0xDC00 <= LowSurrogate(scalar) <= 0xDFFF
    ensures 0x2400 + (HighSurrogate(scalar) - 0xD800) * 0x400 + LowSurrogate(scalar) == scalar
  {
    var n := scalar - 0x10000;
    assert n == n / 0x400 * 0x400 + n % 0x400;
    assert n / 0x400 <= 0x3FF;
  }

  /** An escaped surrogate that is not the first half of a pair adds a question mark. */
  lemma LoneSurrogateStep(text: string, i: nat, s: string, n: nat)
    requires At(text, i, s) && HexEscape(s, n) && Surrogate(n)
    requires n <= 0xDBFF ==> LowSurrogateAt(text, i + 6) == None
    ensures StringStep(text, i) == Success(Parse("?", i + 6))
  {
    HexEscapeAt(text, i, s, n);
    Utf8IsWellFormed(n);
  }

  function Concat(parts: seq<string>): string {
    if parts == [] then "" else parts[0] + Concat(parts[1..])
  }

  function Utf8(scalars: seq<Scalar>): string {
    if scalars == [] then "" else UnicodeCodepointAsUtf8(scalars[0]) + Utf8(scalars[1..])
  }

  ghost predicate EscapesOf(parts: seq<string>, scalars: seq<Scalar>) {
    |parts| == |scalars| && forall k :: 0 <= k < |parts| ==> EscapeOf(parts[k], scalars[k])
  }

  lemma {:induction false} EscapesFrom(text: string, i: nat, parts: seq<string>, scalars: seq<Scalar>, value: string)
    requires EscapesOf(parts, scalars) && At(text, i, Concat(parts) + "\"")
    ensures StringFrom(text, i, value) == Success(Parse(value + Utf8(scalars), i + |Concat(parts)| + 1))
    decreases |parts|
  {
    hide StringStep, UnicodeCodepointAsUtf8, EscapeOf;
    if parts == [] {
      StringFromQuote(text, i, value);
      assert value + Utf8(scalars) == value;
    } else {
      AtFirst(text, i, parts[0], Concat(parts[1..]));
      EscapedScalarStep(text, i, parts[0], scalars[0]);
      var u := UnicodeCodepointAsUtf8(scalars[0]);
      StringFromStep(text, i, u, i + |parts[0]|, value);
      EscapesFrom(text, i + |parts[0]|, parts[1..], scalars[1..], value + u);
      Assoc(value, u, Utf8(scalars[1..]));
    }
  }

  /** Any text of Unicode scalar values, each escaped, decodes to the UTF-8 form of that text. */
  lemma EscapesDecode(text: string, parts: seq<string>, scalars: seq<Scalar>)
    requires EscapesOf(parts, scalars) && text == "\"" + Concat(parts) + "\""
    ensures StringAt(text, 0) == Success(Parse(Utf8(scalars), |text|))
  {
    assert text == "\"" + (Concat(parts) + "\"") + "";
    AtWhole("\"", Concat(parts) + "\"", "");
    EscapesFrom(text, 1, parts, scalars, "");
    assert "" + Utf8(scalars) == Utf8(scalars);
  }
}
