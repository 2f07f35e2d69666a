/** How encoded texts are laid out, and what that means to a reader at some position of a text. */
module JsonLayout {
  import opened Wrappers
  import opened JsonStrings
  import opened LuaValues
  import opened JsonTables
  import opened JsonEncoder
  import opened JsonDecoder
  import opened JsonCycles

  // ---------- Blanks ----------

  predicate AllWhitespace(s: string) { forall k :: 0 <= k < |s| ==> IsWhitespace(s[k]) }

  predicate BlankStyle(style: Style) { style.Pretty? ==> AllWhitespace(style.indent) }

  // ---------- Numbers ----------

  /** A number that ends at `j` goes no further. */
  predicate NumberEnds(text: string, j: nat) {
    j < |text| ==> !IsDigit(text[j]) && text[j] != '.' && text[j] != 'e' && text[j] != 'E'
  }

  lemma {:induction false} SkipsDigits(text: string, i: nat, digits: string)
    requires At(text, i, digits) && AllDigits(digits)
    requires NumberEnds(text, i + |digits|)
    ensures i + |digits| <= |text| && SkipDigits(text, i) == i + |digits|
    decreases |digits|
  {
    if digits != "" {
      SkipsDigits(text, i + 1, digits[1..]);
    }
  }

  lemma {:induction false} AtSlice(text: string, i: nat, s: string)
    requires At(text, i, s)
    ensures i + |s| <= |text| && text[i..i + |s|] == s
    decreases |s|
  {
    AtBound(text, i, s);
    forall k | 0 <= k < |s| ensures text[i..i + |s|][k] == s[k] {
      AtIndex(text, i, s, k);
    }
  }

  lemma IntegerEnds(text: string, i: nat, n: int)
    requires At(text, i, Decimal(n)) && NumberEnds(text, i + |Decimal(n)|)
    ensures i + |Decimal(n)| <= |text| && IntegerPart(text, i) == Some(i + |Decimal(n)|)
  {
    hide HexDigit;
    var s := Decimal(n);
    AtBound(text, i, s);
    if n < 0 {
      assert s[1..] == Digits(-n);
      SkipsDigits(text, i + 2, Digits(-n)[1..]);
    } else if n > 0 {
      SkipsDigits(text, i + 1, Digits(n)[1..]);
    }
  }

  lemma NumberInverts(text: string, i: nat, n: int)
    requires At(text, i, Decimal(n)) && NumberEnds(text, i + |Decimal(n)|)
    ensures i + |Decimal(n)| <= |text| && NumberAt(text, i) == Success(Parse(VInt(n), i + |Decimal(n)|))
  {
    hide Decimal, IntOf, IntegerPart, SkipDigits;
    IntegerEnds(text, i, n);
    AtSlice(text, i, Decimal(n));
    IntOfDecimal(n);
  }

  // ---------- The layout of lists ----------

  /** A list as both styles write it: every part has `lead` in front, a comma follows all but the last,
      and `trail` stands before the closing bracket. */
  function Laid(parts: seq<string>, lead: string, trail: string, close: char): string
    requires parts != []
  {
    lead + parts[0] + (if |parts| == 1 then trail + [close] else [','] + Laid(parts[1..], lead, trail, close))
  }

  /** No whitespace and no other character that `decode` looks for before a value. */
  predicate Solid(c: char) { !IsSpace(c) && c != '<' && c != '\0' && c != ']' && c != '}' }

  predicate Starts(s: string) { s != "" && Solid(s[0]) && (|s| >= 2 ==> s[1] != '\0') }

  lemma {:induction false} SkipsWhitespace(text: string, i: nat, blank: string)
    requires At(text, i, blank) && AllWhitespace(blank)
    requires i + |blank| < |text| ==> !IsWhitespace(text[i + |blank|])
    ensures i + |blank| <= |text| && SkipWhitespace(text, i) == i + |blank|
    decreases |blank|
  {
    if blank != "" {
      SkipsWhitespace(text, i + 1, blank[1..]);
    }
  }

  lemma AtThree(text: string, i: nat, a: string, b: string, c: string)
    ensures At(text, i, a + b + c) <==> At(text, i, a) && At(text, i + |a|, b) && At(text, i + |a| + |b|, c)
  {
    AtConcat(text, i, a + b, c);
    AtConcat(text, i, a, b);
  }

  /** What follows the blanks behind a part is reached. */
  lemma SkipsTo(text: string, i: nat, blank: string, c: char)
    requires At(text, i, blank + [c]) && AllWhitespace(blank) && !IsWhitespace(c)
    ensures SkipWhitespace(text, i) == i + |blank| && CharIs(text, i + |blank|, c)
    ensures c == ',' || c == ']' || c == '}' ==> NumberEnds(text, i)
  {
    AtConcat(text, i, blank, [c]);
    SkipsWhitespace(text, i, blank);
    if blank != "" {
      AtIndex(text, i, blank, 0);
    }
  }

  /** The blanks in front of a part lead to it. */
  lemma LeadsTo(text: string, i: nat, lead: string, part: string)
    requires At(text, i, lead) && At(text, i + |lead|, part) && AllWhitespace(lead) && Starts(part)
    ensures i + |lead| < |text| && SkipWhitespace(text, i) == i + |lead|
    ensures text[i + |lead|] == part[0]
  {
    SkipsWhitespace(text, i, lead);
  }

  predicate Closing(close: char) { close == ']' || close == '}' }

  /** Where the first part of a list stands, and what follows it. */
  lemma LaidFirst(text: string, i: nat, parts: seq<string>, lead: string, trail: string, close: char)
    requires parts != [] && At(text, i, Laid(parts, lead, trail, close))
    requires AllWhitespace(lead) && AllWhitespace(trail) && Closing(close) && Starts(parts[0])
    ensures var start := i + |lead|;
            var end := start + |parts[0]|;
            && start < |text| && SkipWhitespace(text, i) == start && text[start] == parts[0][0]
            && At(text, start, parts[0]) && NumberEnds(text, end)
            && if |parts| == 1 then
                 var behind := SkipWhitespace(text, end);
                 CharIs(text, behind, close) && behind + 1 == i + |Laid(parts, lead, trail, close)|
               else
                 && SkipWhitespace(text, end) == end && CharIs(text, end, ',')
                 && At(text, end + 1, Laid(parts[1..], lead, trail, close))
                 && end + 1 + |Laid(parts[1..], lead, trail, close)| == i + |Laid(parts, lead, trail, close)|
  {
    var start := i + |lead|;
    var end := start + |parts[0]|;
    if |parts| == 1 {
      AtThree(text, i, lead, parts[0], trail + [close]);
      LeadsTo(text, i, lead, parts[0]);
      SkipsTo(text, end, trail, close);
    } else {
      var rest := Laid(parts[1..], lead, trail, close);
      AtThree(text, i, lead, parts[0], [','] + rest);
      LeadsTo(text, i, lead, parts[0]);
      AtConcat(text, end, [','], rest);
      SkipsTo(text, end, "", ',');
    }
  }

  function WithLead(lead: string, parts: seq<string>): (r: seq<string>)
    ensures |r| == |parts|
  {
    if parts == [] then [] else [lead + parts[0]] + WithLead(lead, parts[1..])
  }

  /** Joining is laying out: `gap` is what stands between comma and lead. */
  lemma {:induction false} JoinIsLaid(parts: seq<string>, gap: string, lead: string, trail: string, close: char)
    requires parts != []
    ensures gap + Join(WithLead(lead, parts), "," + gap) + trail + [close] == Laid(parts, gap + lead, trail, close)
    decreases |parts|
  {
    var led := WithLead(lead, parts);
    assert led[0] == lead + parts[0] && led[1..] == WithLead(lead, parts[1..]);
    if |parts| == 1 {
      LayLast(gap, lead, parts[0], trail, close);
    } else {
      JoinIsLaid(parts[1..], gap, lead, trail, close);
      LayNext(gap, lead, parts[0], Join(led[1..], "," + gap), trail, close);
    }
  }

  lemma LayLast(gap: string, lead: string, part: string, trail: string, close: char)
    ensures gap + (lead + part) + trail + [close] == (gap + lead) + part + (trail + [close])
  {
  }

  lemma LayNext(gap: string, lead: string, part: string, rest: string, trail: string, close: char)
    ensures gap + ((lead + part) + ("," + gap) + rest) + trail + [close] ==
            (gap + lead) + part + ([','] + (gap + rest + trail + [close]))
  {
  }

  // ---------- Texts begin properly ----------

  function Gap(style: Style): string { if style.Compact? then "" else " " }

  lemma ArrayIsLaid(items: seq<string>, style: Style)
    requires items != []
    ensures ArrayText(items, style) == "[" + Laid(items, Gap(style), Gap(style), ']')
  {
    NoLead(items);
    JoinIsLaid(items, Gap(style), "", Gap(style), ']');
    assert Gap(style) + "" == Gap(style) && "," + "" == "," && "," + " " == ", ";
    var joined := Join(items, "," + Gap(style));
    if style.Compact? {
      assert "[" + joined + "]" == "[" + ("" + joined + "" + "]");
    } else {
      assert "[ " + joined + " ]" == "[" + (" " + joined + " " + "]");
    }
  }

  lemma {:induction false} NoLead(parts: seq<string>)
    ensures WithLead("", parts) == parts
  {
    if parts != [] {
      NoLead(parts[1..]);
      assert "" + parts[0] == parts[0];
    }
  }

  lemma StartsArray(items: seq<string>, style: Style)
    requires items != [] && Starts(items[0])
    ensures Starts(ArrayText(items, style))
  {
    ArrayIsLaid(items, style);
    var laid := Laid(items, Gap(style), Gap(style), ']');
    assert laid[0] == if style.Compact? then items[0][0] else ' ';
  }

  lemma StartsDecimal(n: int)
    ensures Starts(Decimal(n))
  {
    var digits := Digits(if n < 0 then -n else n);
    assert forall k :: 0 <= k < |digits| ==> IsDigit(digits[k]);
    assert n < 0 ==> Decimal(n)[1] == digits[0];
  }

  lemma StartsLiteral(s: string, rest: string)
    ensures Starts(JsonStringLiteral(s) + rest)
  {
    LiteralHasNoControls(s);
    if s != "" {
      assert JsonStringLiteral(s)[1] == EscapedAll(s)[0];
      assert EscapedAll(s)[0] in EscapedAll(s);
    }
  }

  lemma StartsLeaf(r: Ref)
    requires !r.Table? && LeafText(r).Success?
    ensures Starts(LeafText(r).value)
  {
    match r
    case Int(n) => StartsDecimal(n);
    case Text(s) => StartsLiteral(s, ""); assert JsonStringLiteral(s) + "" == JsonStringLiteral(s);
    case _ =>
  }

  lemma StartsObject(members: seq<string>, style: Style, indent: string)
    requires members != [] && members[0] != "" && members[0][0] != '\0'
    ensures Starts(ObjectText(members, style, indent))
  {
    var joined := Join(members, ",");
    assert joined[0] == members[0][0];
  }

  lemma MemberStarts(key: string, value: string, style: Style, indent: string)
    requires BlankStyle(style) && AllWhitespace(indent)
    ensures MemberText(key, value, style, indent) != "" && MemberText(key, value, style, indent)[0] != '\0'
  {
    var lead := SubtableIndent(style, indent);
    if style.Pretty? && lead != "" {
      assert MemberText(key, value, style, indent)[0] == lead[0];
    }
  }

  /** What a successful `ItemTexts` is made of. */
  lemma ItemsUnfold(h: Heap, t: Entries, k: nat, maximum: nat, parents: set<TableId>, style: Style, indent: string)
    requires Closed(h) && AllInHeap(h, t) && k <= maximum
    requires ItemTexts(h, t, k, maximum, parents, style, indent).Success?
    ensures InHeap(h, Lookup(t, Num(k))) && ValueText(h, Lookup(t, Num(k)), parents, style, indent).Success?
    ensures ItemTexts(h, t, k + 1, maximum, parents, style, indent).Success?
    ensures var items := ItemTexts(h, t, k, maximum, parents, style, indent).value;
            && items != [] && items[0] == ValueText(h, Lookup(t, Num(k)), parents, style, indent).value
            && items[1..] == ItemTexts(h, t, k + 1, maximum, parents, style, indent).value
            && (|items| == 1 <==> k == maximum)
  {
    hide ValueText;
    if k < maximum {
      assert ItemTexts(h, t, k + 1, maximum, parents, style, indent).value != [];
    }
  }

  lemma MembersUnfold(h: Heap, keys: seq<Key>, entries: Entries, parents: set<TableId>, style: Style, indent: string)
    requires Closed(h) && AllInHeap(h, entries) && keys != [] && forall j :: 0 <= j < |keys| ==> keys[j].Str?
    requires MemberTexts(h, keys, entries, parents, style, indent).Success?
    ensures InHeap(h, Lookup(entries, keys[0]))
    ensures ValueText(h, Lookup(entries, keys[0]), parents, style, SubtableIndent(style, indent)).Success?
    ensures MemberTexts(h, keys[1..], entries, parents, style, indent).Success?
    ensures var members := MemberTexts(h, keys, entries, parents, style, indent).value;
            var value := ValueText(h, Lookup(entries, keys[0]), parents, style, SubtableIndent(style, indent)).value;
            && members != [] && members[0] == MemberText(keys[0].s, value, style, indent)
            && members[1..] == MemberTexts(h, keys[1..], entries, parents, style, indent).value
  {
    hide ValueText, MemberText, SubtableIndent;
  }

  lemma ObjectHasKeys(t: Entries)
    requires ShapeOf(t).Object?
    ensures ShapeOf(t).keys != []
  {
    SortedKeys(t);
    if ShapeOf(t).keys == [] {
      assert forall k :: k !in t;
    }
  }

  lemma {:induction false} ValueStarts(h: Heap, r: Ref, parents: set<TableId>, style: Style, indent: string)
    requires Closed(h) && InHeap(h, r) && BlankStyle(style) && AllWhitespace(indent)
    requires ValueText(h, r, parents, style, indent).Success?
    ensures Starts(ValueText(h, r, parents, style, indent).value)
    decreases |h.Keys - parents|
  {
    hide ShapeOf, Starts, ItemTexts, MemberTexts, ArrayText, ObjectText;
    if !r.Table? {
      StartsLeaf(r);
    } else {
      var t, parents' := h[r.id], parents + {r.id};
      OneMoreParent(h, parents, r.id);
      match ShapeOf(t)
      case Broken(_) =>
      case Empty => assert Starts("[]") by { StartsEmpty(); }
      case Array(maximum) =>
        ArrayKeys(t, maximum);
        ItemsUnfold(h, t, 1, maximum, parents', style, indent);
        ValueStarts(h, Lookup(t, Num(1)), parents', style, indent);
        StartsArray(ItemTexts(h, t, 1, maximum, parents', style, indent).value, style);
      case Object(keys, entries) =>
        ShapeInHeap(h, t);
        ObjectHasKeys(t);
        MembersUnfold(h, keys, entries, parents', style, indent);
        var value := ValueText(h, Lookup(entries, keys[0]), parents', style, SubtableIndent(style, indent)).value;
        MemberStarts(keys[0].s, value, style, indent);
        StartsObject(MemberTexts(h, keys, entries, parents', style, indent).value, style, indent);
    }
  }

  lemma StartsEmpty()
    ensures Starts("[]")
  {
  }
}
