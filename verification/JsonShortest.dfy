/** How the encoder writes strings, numbers and lists, told from the grammar: string literals are the
    shortest there are, numbers are their numerals, and nothing stands between the parts but what has to. */
module JsonShortest {
  import opened Wrappers
  import opened Sequences
  import opened JsonStrings
  import opened LuaValues
  import opened JsonTables
  import opened JsonEncoder
  import opened JsonGrammar
  import opened JsonReads
  import opened JsonOrder

  // ---------- Strings ----------

  lemma {:induction false} EscapedConcat(a: string, b: string)
    ensures EscapedAll(a + b) == EscapedAll(a) + EscapedAll(b)
  {
    if a == "" {
      assert a + b == b && EscapedAll(a) + EscapedAll(b) == EscapedAll(b);
    } else {
      assert (a + b)[1..] == a[1..] + b;
      EscapedConcat(a[1..], b);
      Assoc(Escaped(a[0]), EscapedAll(a[1..]), EscapedAll(b));
    }
  }

  lemma {:induction false} HighBytesStay(s: string)
    requires forall k :: 0 <= k < |s| ==> s[k] as int >= 0x80
    ensures EscapedAll(s) == s
  {
    if s != "" {
      HighBytesStay(s[1..]);
      assert [s[0]] + s[1..] == s;
    }
  }

  lemma EscapedOne(c: char)
    ensures EscapedAll([c]) == Escaped(c)
  {
    assert [c][1..] == "";
    assert Escaped(c) + "" == Escaped(c);
  }

  lemma CodeIsLonger(scalar: Scalar)
    ensures |EscapedAll(UnicodeCodepointAsUtf8(scalar))| <= 6
  {
    if scalar < 0x80 {
      EscapedOne(UnicodeCodepointAsUtf8(scalar)[0]);
      assert UnicodeCodepointAsUtf8(scalar) == [UnicodeCodepointAsUtf8(scalar)[0]];
    } else {
      Utf8IsWellFormed(scalar);
      HighBytesStay(UnicodeCodepointAsUtf8(scalar));
    }
  }

  lemma PartIsLonger(p: Part, after: string)
    requires PartOk(p, after) && RfcPart(p)
    ensures |EscapedAll(PartMeaning(p))| <= |PartText(p)|
  {
    match p
    case Raw(c) => EscapedOne(c);
    case Short(c) => EscapedOne(ShortMeaning(c));
    case Code(_, scalar) => CodeIsLonger(scalar);
    case Alone(_, _) => EscapedOne('?');
  }

  lemma {:induction false} PartsAreLonger(parts: seq<Part>)
    requires PartsOk(parts) && RfcParts(parts)
    ensures |EscapedAll(StringMeaning(parts))| <= |PartsText(parts)|
    decreases |parts|
  {
    hide PartOk, PartText, PartMeaning, RfcPart;
    if parts != [] {
      assert RfcPart(parts[0]);
      PartIsLonger(parts[0], PartsText(parts[1..]) + "\"");
      PartsAreLonger(parts[1..]);
      EscapedConcat(PartMeaning(parts[0]), StringMeaning(parts[1..]));
    }
  }

  /** No string of RFC 8259 that means `s` is shorter than the one that is written. */
  lemma LiteralIsShortest(s: string, parts: seq<Part>)
    requires PartsOk(parts) && RfcParts(parts) && StringMeaning(parts) == s
    ensures |JsonStringLiteral(s)| <= |StringText(parts)|
  {
    PartsAreLonger(parts);
  }

  predicate IsLowerHex(c: char) { c in "0123456789abcdef" }

  /** A control character without a short form is written in four lower-case digits. */
  lemma ControlEscape(c: char)
    requires c as int < 32
    ensures if exists letter :: RfcPart(Short(letter)) && ShortMeaning(letter) == c
            then |Escaped(c)| == 2
            else |Escaped(c)| == 6 && Escaped(c)[..4] == "\\u00"
                 && IsLowerHex(Escaped(c)[4]) && IsLowerHex(Escaped(c)[5])
  {
    assert c == '\n' ==> ShortMeaning('n') == c;
    assert c == '\r' ==> ShortMeaning('r') == c;
    assert c == '\t' ==> ShortMeaning('t') == c;
    assert c == '\U{8}' ==> ShortMeaning('b') == c;
    assert c == '\U{c}' ==> ShortMeaning('f') == c;
    LowerDigit(c as int / 16);
    LowerDigit(c as int % 16);
  }

  lemma LowerDigit(n: nat)
    requires n < 16
    ensures IsLowerHex(HexDigit(n)) && "0123456789abcdef"[n] == HexDigit(n)
  {
  }

  /** Sixteen digits, the letters in either case, stand for the numbers below sixteen, and no others do. */
  lemma HexDigits(n: nat, c: char)
    requires n < 16
    ensures IsHex("0123456789abcdef"[n]) && HexValue("0123456789abcdef"[n]) == n
    ensures IsHex("0123456789ABCDEF"[n]) && HexValue("0123456789ABCDEF"[n]) == n
    ensures IsHex(c) ==> c == "0123456789abcdef"[HexValue(c)] || c == "0123456789ABCDEF"[HexValue(c)]
  {
  }

  // ---------- Numbers ----------

  /** An integer is written as its numeral, by the places of its digits. */
  lemma DecimalIsNumeral(n: int)
    ensures var numeral := Numeral(n < 0, Digits(if n < 0 then -n else n), "", "");
            && IsNumeral(numeral) && Decimal(n) == NumeralText(numeral) && NumeralMeaning(numeral) == VInt(n)
  {
    var digits := Digits(if n < 0 then -n else n);
    NatOfDigits(if n < 0 then -n else n);
    PlacesAreNat(digits);
  }

  // ---------- Lists ----------

  lemma EmptyText(style: Style)
    ensures Closed(map[0 := map[]]) && InHeap(map[0 := map[]], Table(0))
    ensures ValueText(map[0 := map[]], Table(0), {}, style, "") == Success("[]")
  {
    var t: Entries := map[];
    assert StringKeys(t) == {} && NumberKeys(t) == {};
  }

  function TwoItems(m: int, n: int): Heap { map[0 := map[Num(1) := Int(m), Num(2) := Int(n)]] }

  lemma TwoItemsShape(t: Entries)
    requires t.Keys == {Num(1), Num(2)}
    ensures ShapeOf(t) == Array(2)
  {
    assert StringKeys(t) == {};
    assert Num(2) in NumberKeys(t);
    assert IsMaximum(t, 2);
    MaximumExists(t);
    forall m | IsMaximum(t, m) ensures m == 2 {
      MaximumIsUnique(t, m, 2);
    }
  }

  /** What the texts look like: a list of two numbers, compact and pretty. */
  lemma TwoItemsText(m: int, n: int)
    ensures var h := TwoItems(m, n);
            && Closed(h) && InHeap(h, Table(0))
            && ValueText(h, Table(0), {}, Compact, "") == Success("[" + (Decimal(m) + "," + Decimal(n)) + "]")
            && ValueText(h, Table(0), {}, DEFAULT_PRETTY, "") == Success("[ " + (Decimal(m) + ", " + Decimal(n)) + " ]")
  {
    var h := TwoItems(m, n);
    var t := h[0];
    assert Closed(h) && AllInHeap(h, t);
    TwoItemsShape(t);
    hide ShapeOf, Decimal, Closed, AllInHeap;
    assert Lookup(t, Num(1)) == Int(m) && Lookup(t, Num(2)) == Int(n);
    TwoItemsJoin(h, t, {} + {0}, Compact);
    TwoItemsJoin(h, t, {} + {0}, DEFAULT_PRETTY);
    hide TableText;
    JoinTwo(Decimal(m), Decimal(n), ",");
    JoinTwo(Decimal(m), Decimal(n), ", ");
  }

  lemma TwoItemsJoin(h: Heap, t: Entries, parents: set<TableId>, style: Style)
    requires Closed(h) && AllInHeap(h, t) && ShapeOf(t) == Array(2)
    requires Lookup(t, Num(1)).Int? && Lookup(t, Num(2)).Int?
    ensures TableText(h, t, parents, style, "") ==
            Success(ArrayText([Decimal(Lookup(t, Num(1)).n), Decimal(Lookup(t, Num(2)).n)], style))
  {
    hide ShapeOf, Decimal, ArrayText, Lookup;
    var first, second := Decimal(Lookup(t, Num(1)).n), Decimal(Lookup(t, Num(2)).n);
    assert ItemTexts(h, t, 3, 2, parents, style, "") == Success([]);
    assert ItemTexts(h, t, 2, 2, parents, style, "") == Success([second] + []);
    assert ItemTexts(h, t, 1, 2, parents, style, "") == Success([first] + ([second] + []));
    assert [first] + ([second] + []) == [first, second];
  }

  // ---------- Indents ----------

  lemma OneKeyShape(t: Entries, k: string)
    requires t.Keys == {Str(k)}
    ensures ShapeOf(t) == Object([Str(k)], t)
  {
    assert StringKeys(t) == {Str(k)} && NumberKeys(t) == {};
    assert multiset([Str(k)]) == multiset({Str(k)});
    assert Sorted([Str(k)]);
    OrderedIs([Str(k)], {Str(k)});
    NoNumbers(t);
    hide Ordered, KeyLeq, Sorted;
    assert [Str(k)] + AsStrings([]) == [Str(k)];
  }

  /** A table of one member, at any indent. */
  lemma OneMember(h: Heap, t: Entries, k: string, parents: set<TableId>, style: Style, indent: string, value: string)
    requires Closed(h) && AllInHeap(h, t) && t.Keys == {Str(k)} && InHeap(h, Lookup(t, Str(k)))
    requires ValueText(h, Lookup(t, Str(k)), parents, style, SubtableIndent(style, indent)) == Success(value)
    ensures TableText(h, t, parents, style, indent) ==
            Success(ObjectText([MemberText(k, value, style, indent)], style, indent))
  {
    OneKeyShape(t, k);
    hide ShapeOf, MemberText, ObjectText, Lookup, SubtableIndent, ValueText;
    assert [Str(k)][1..] == [];
    assert MemberTexts(h, [], t, parents, style, indent) == Success([]);
    assert MemberTexts(h, [Str(k)], t, parents, style, indent) == Success([MemberText(k, value, style, indent)] + []);
  }

  function Nested(a: string, b: string, n: int): Heap {
    map[0 := map[Str(a) := Table(1)], 1 := map[Str(b) := Int(n)]]
  }

  lemma NestedHeap(a: string, b: string, n: int)
    ensures var h := Nested(a, b, n);
            && Closed(h) && InHeap(h, Table(0)) && InHeap(h, Table(1)) && AllInHeap(h, h[0]) && AllInHeap(h, h[1])
            && Lookup(h[0], Str(a)) == Table(1) && Lookup(h[1], Str(b)) == Int(n)
            && h[0].Keys == {Str(a)} && h[1].Keys == {Str(b)}
  {
  }

  lemma NestedValue(a: string, b: string, n: int, style: Style)
    ensures var h := Nested(a, b, n);
            && Closed(h) && InHeap(h, Table(0))
            && var inner := SubtableIndent(style, "");
               ValueText(h, Table(0), {}, style, "") ==
               Success(ObjectText([MemberText(a, ObjectText([MemberText(b, Decimal(n), style, inner)], style, inner),
                                              style, "")], style, ""))
  {
    var h, inner := Nested(a, b, n), SubtableIndent(style, "");
    NestedHeap(a, b, n);
    hide Decimal, Closed, AllInHeap, MemberText, ObjectText, TableText, Lookup, JsonStringLiteral, SubtableIndent;
    hide Nested;
    OneMember(h, h[1], b, {} + {0} + {1}, style, inner, Decimal(n));
    var text := ObjectText([MemberText(b, Decimal(n), style, inner)], style, inner);
    assert ValueText(h, Table(1), {} + {0}, style, inner) == Success(text);
    OneMember(h, h[0], a, {} + {0}, style, "", text);
  }

  /** What the texts look like: an object within an object, each level one indent further. */
  lemma NestedText(a: string, b: string, n: int)
    ensures var h := Nested(a, b, n);
            && Closed(h) && InHeap(h, Table(0))
            && ValueText(h, Table(0), {}, Compact, "") ==
               Success("{" + (JsonStringLiteral(a) + ":" + ("{" + (JsonStringLiteral(b) + ":" + Decimal(n)) + "}"))
                       + "}")
            && ValueText(h, Table(0), {}, DEFAULT_PRETTY, "") ==
               Success("{\n" + ("  " + JsonStringLiteral(a) + ": "
                                + ("{\n" + ("    " + JsonStringLiteral(b) + ": " + Decimal(n)) + "\n" + "  " + "}"))
                       + "\n" + "" + "}")
  {
    hide ValueText, Decimal, JsonStringLiteral, Closed;
    NestedValue(a, b, n, Compact);
    NestedValue(a, b, n, DEFAULT_PRETTY);
    assert "" + "  " == "  " && "  " + "  " == "    ";
  }
}
