/** `decode` reads every text of the grammar, wherever its blanks are, and gives what the text means. */
module JsonReads {
  import opened Wrappers
  import opened Sequences
  import opened JsonStrings
  import opened LuaValues
  import opened JsonDecoder
  import opened JsonLayout
  import opened JsonGrammar

  // ---------- Strings ----------

  /** One round of the loop reads one piece. */
  lemma PartReads(text: string, i: nat, p: Part, after: string)
    requires PartOk(p, after) && At(text, i, PartText(p)) && At(text, i + |PartText(p)|, after)
    requires exists k :: 0 <= k < |after| && after[k] == '"'
    ensures i < |text| && text[i] != '"'
    ensures StringStep(text, i) == Success(Parse(PartMeaning(p), i + |PartText(p)|))
  {
    match p
    case Raw(c) =>
    case Short(c) => ShortReads(text, i, c, after);
    case Code(escape, scalar) => EscapedScalarStep(text, i, escape, scalar);
    case Alone(escape, n) =>
      if n <= 0xDBFF {
        NoLowSurrogate(text, i + 6, after);
      }
      LoneSurrogateStep(text, i, escape, n);
  }

  lemma ShortReads(text: string, i: nat, c: char, after: string)
    requires c == 'u' ==> !FourHex(after)
    requires At(text, i, ['\\', c]) && At(text, i + 2, after) && exists k :: 0 <= k < |after| && after[k] == '"'
    ensures i < |text| && text[i] != '"'
    ensures StringStep(text, i) == Success(Parse([ShortMeaning(c)], i + 2))
  {
    AtIndex(text, i, ['\\', c], 0);
    AtIndex(text, i, ['\\', c], 1);
    if c == 'u' {
      NoHex(text, i, after);
    }
  }

  /** A quote in front of the end is no hexadecimal digit, so what stands behind it does not matter. */
  lemma NoHex(text: string, i: nat, after: string)
    requires At(text, i + 2, after) && !FourHex(after) && exists k :: 0 <= k < |after| && after[k] == '"'
    ensures HexAt(text, i) == None
  {
    var k :| 0 <= k < |after| && after[k] == '"';
    AtIndex(text, i + 2, after, k);
    if |after| >= 4 {
      AtIndex(text, i + 2, after, 0);
      AtIndex(text, i + 2, after, 1);
      AtIndex(text, i + 2, after, 2);
      AtIndex(text, i + 2, after, 3);
    }
  }

  lemma NoLowSurrogate(text: string, i: nat, after: string)
    requires At(text, i, after) && !LowFirst(after) && exists k :: 0 <= k < |after| && after[k] == '"'
    ensures LowSurrogateAt(text, i) == None
  {
    var k :| 0 <= k < |after| && after[k] == '"';
    AtIndex(text, i, after, k);
    if LowSurrogateAt(text, i).Some? {
      var n := HexAt(text, i).value;
      if |after| >= 6 {
        forall m | 0 <= m < 6 ensures text[i + m] == after[m] {
          AtIndex(text, i, after, m);
        }
        assert text[i..i + 6] == after[..6];
        assert HexEscape(after[..6], n);
      }
    }
  }

  lemma {:induction false} PartsRead(text: string, i: nat, parts: seq<Part>, value: string)
    requires PartsOk(parts) && At(text, i, PartsText(parts) + "\"")
    ensures StringFrom(text, i, value) == Success(Parse(value + StringMeaning(parts), i + |PartsText(parts)| + 1))
    decreases |parts|
  {
    hide StringStep, PartOk, PartMeaning, PartText;
    if parts == [] {
      StringFromQuote(text, i, value);
      assert value + "" == value;
    } else {
      var rest := PartsText(parts[1..]);
      AtFirst(text, i, PartText(parts[0]), rest);
      assert (rest + "\"")[|rest|] == '"';
      PartReads(text, i, parts[0], rest + "\"");
      StringFromStep(text, i, PartMeaning(parts[0]), i + |PartText(parts[0])|, value);
      PartsRead(text, i + |PartText(parts[0])|, parts[1..], value + PartMeaning(parts[0]));
      Assoc(value, PartMeaning(parts[0]), StringMeaning(parts[1..]));
    }
  }

  lemma StringReads(text: string, i: nat, parts: seq<Part>)
    requires PartsOk(parts) && At(text, i, StringText(parts))
    ensures i < |text| && text[i] == '"'
    ensures StringAt(text, i) == Success(Parse(StringMeaning(parts), i + |StringText(parts)|))
  {
    hide PartsOk, PartsText, StringFrom, StringMeaning;
    AtConcat(text, i, "\"", PartsText(parts) + "\"");
    PartsRead(text, i + 1, parts, "");
    assert "" + StringMeaning(parts) == StringMeaning(parts);
  }

  // ---------- Numbers ----------

  predicate ExponentStarts(text: string, j: nat) {
    && (CharIs(text, j, 'e') || CharIs(text, j, 'E'))
    && (DigitAt(text, j + 1) || ((CharIs(text, j + 1, '+') || CharIs(text, j + 1, '-')) && DigitAt(text, j + 2)))
  }

  /** At `j`, where the numeral ends, it does not go on. */
  predicate NumeralStops(n: Numeral, text: string, j: nat) {
    if n.exponent != "" then !DigitAt(text, j)
    else
      && !ExponentStarts(text, j)
      && if n.fraction != "" then !DigitAt(text, j)
         else !(CharIs(text, j, '.') && DigitAt(text, j + 1)) && (n.integer != "0" ==> !DigitAt(text, j))
  }

  lemma {:induction false} DigitsRead(text: string, i: nat, digits: string)
    requires At(text, i, digits) && AllDigits(digits) && !DigitAt(text, i + |digits|)
    ensures i + |digits| <= |text| && SkipDigits(text, i) == i + |digits|
    decreases |digits|
  {
    if digits != "" {
      DigitsRead(text, i + 1, digits[1..]);
    }
  }

  lemma IntegerReads(text: string, i: nat, n: Numeral)
    requires IsInteger(n.integer) && At(text, i, Sign(n.minus)) && At(text, i + |Sign(n.minus)|, n.integer)
    requires n.integer != "0" ==> !DigitAt(text, i + |Sign(n.minus)| + |n.integer|)
    ensures i <= |text| && IntegerPart(text, i) == Some(i + |Sign(n.minus)| + |n.integer|)
  {
    var first := i + |Sign(n.minus)|;
    AtBound(text, i, Sign(n.minus));
    assert text[first] == n.integer[0];
    assert !n.minus ==> text[i] != '-';
    if n.integer != "0" {
      DigitsRead(text, first + 1, n.integer[1..]);
    }
  }

  lemma FractionReads(text: string, i: nat, n: Numeral)
    requires IsFraction(n.fraction) && At(text, i, n.fraction)
    requires if n.fraction != "" then !DigitAt(text, i + |n.fraction|)
             else !(CharIs(text, i, '.') && DigitAt(text, i + 1))
    ensures i <= |text| && DecimalPart(text, i) == i + |n.fraction|
  {
    if n.fraction != "" {
      var digits := n.fraction[1..];
      assert text[i + 1] == digits[0];
      DigitsRead(text, i + 1, digits);
    }
  }

  lemma ExponentReads(text: string, i: nat, n: Numeral)
    requires IsExponent(n.exponent) && At(text, i, n.exponent)
    requires if n.exponent != "" then !DigitAt(text, i + |n.exponent|) else !ExponentStarts(text, i)
    ensures i <= |text| && ExponentPart(text, i) == i + |n.exponent|
  {
    if n.exponent != "" {
      AtIndex(text, i, n.exponent, 0);
      AtIndex(text, i, n.exponent, 1);
      if AllDigits(n.exponent[1..]) {
        assert n.exponent[1] == n.exponent[1..][0];
        DigitsRead(text, i + 1, n.exponent[1..]);
      } else {
        AtIndex(text, i, n.exponent, 2);
        assert n.exponent[2] == n.exponent[2..][0];
        assert n.exponent[1..][1..] == n.exponent[2..];
        DigitsRead(text, i + 2, n.exponent[2..]);
      }
    }
  }

  lemma DigitIs(c: char)
    requires IsDigit(c)
    ensures HexValue(c) == c as int - '0' as int
  {
  }

  lemma {:induction false} PlacesLast(s: string)
    requires s != "" && AllDigits(s)
    ensures Places(s) == 10 * Places(s[..|s| - 1]) + (s[|s| - 1] as int - '0' as int)
    decreases |s|
  {
    var front, d := s[..|s| - 1], s[0] as int - '0' as int;
    if |s| == 1 {
      assert Places(s[1..]) == 0 && PowerOfTen(0) == 1;
    } else {
      PlacesLast(s[1..]);
      assert s[1..][..|s| - 2] == front[1..];
      assert PowerOfTen(|s| - 1) == 10 * PowerOfTen(|s| - 2);
      ScaledTen(d, PowerOfTen(|s| - 2));
    }
  }

  lemma ScaledTen(d: int, p: nat)
    ensures d * (10 * p) == 10 * (d * p)
  {
  }

  lemma {:induction false} PlacesAreNat(s: string)
    requires AllDigits(s)
    ensures NatOf(s) == Places(s)
    decreases |s|
  {
    if s != "" {
      PlacesLast(s);
      PlacesAreNat(s[..|s| - 1]);
      DigitIs(s[|s| - 1]);
    }
  }

  lemma NumeralAt(text: string, i: nat, n: Numeral)
    requires At(text, i, NumeralText(n))
    ensures At(text, i, Sign(n.minus)) && At(text, i + |Sign(n.minus)|, n.integer)
    ensures At(text, i + |Sign(n.minus)| + |n.integer|, n.fraction)
    ensures At(text, i + |Sign(n.minus)| + |n.integer| + |n.fraction|, n.exponent)
  {
    AtConcat(text, i, Sign(n.minus) + n.integer + n.fraction, n.exponent);
    AtConcat(text, i, Sign(n.minus) + n.integer, n.fraction);
    AtConcat(text, i, Sign(n.minus), n.integer);
  }

  /** The parts end where they should, because none of them can go on into the next. */
  lemma PartsStop(text: string, i: nat, n: Numeral)
    requires IsNumeral(n) && At(text, i, n.fraction) && At(text, i + |n.fraction|, n.exponent)
    requires NumeralStops(n, text, i + |n.fraction| + |n.exponent|)
    ensures n.integer != "0" ==> !DigitAt(text, i)
    ensures if n.fraction != "" then !DigitAt(text, i + |n.fraction|)
            else !(CharIs(text, i, '.') && DigitAt(text, i + 1))
    ensures if n.exponent != "" then !DigitAt(text, i + |n.fraction| + |n.exponent|)
            else !ExponentStarts(text, i + |n.fraction|)
  {
    if n.fraction != "" {
      AtIndex(text, i, n.fraction, 0);
    }
    if n.exponent != "" {
      AtIndex(text, i + |n.fraction|, n.exponent, 0);
    }
  }

  lemma NumeralEndsAt(text: string, i: nat, n: Numeral)
    requires IsNumeral(n) && At(text, i, NumeralText(n)) && NumeralStops(n, text, i + |NumeralText(n)|)
    ensures var integer := i + |Sign(n.minus)| + |n.integer|;
            && i < integer <= |text| && IntegerPart(text, i) == Some(integer)
            && DecimalPart(text, integer) == integer + |n.fraction| <= |text|
            && ExponentPart(text, integer + |n.fraction|) == i + |NumeralText(n)| <= |text|
  {
    hide IntegerPart, DecimalPart, ExponentPart, IsInteger, IsFraction, IsExponent, ExponentStarts, Sign;
    var first := i + |Sign(n.minus)|;
    NumeralAt(text, i, n);
    PartsStop(text, first + |n.integer|, n);
    IntegerReads(text, i, n);
    FractionReads(text, first + |n.integer|, n);
    ExponentReads(text, first + |n.integer| + |n.fraction|, n);
  }

  lemma NumeralStarts(text: string, i: nat, n: Numeral)
    requires IsInteger(n.integer) && At(text, i, NumeralText(n))
    ensures i < |text| && (text[i] == '-' || IsDigit(text[i]))
  {
    NumeralAt(text, i, n);
    AtIndex(text, i + |Sign(n.minus)|, n.integer, 0);
  }

  lemma NumeralReads(text: string, i: nat, n: Numeral)
    requires IsNumeral(n) && At(text, i, NumeralText(n)) && NumeralStops(n, text, i + |NumeralText(n)|)
    ensures i < |text| && (text[i] == '-' || IsDigit(text[i]))
    ensures NumberAt(text, i) == Success(Parse(NumeralMeaning(n), i + |NumeralText(n)|))
  {
    hide IntegerPart, DecimalPart, ExponentPart, IntOf, Places, NumeralStops, At;
    NumeralStarts(text, i, n);
    NumeralEndsAt(text, i, n);
    AtSlice(text, i, NumeralText(n));
    if n.fraction == "" && n.exponent == "" {
      assert NumeralText(n) == Sign(n.minus) + n.integer;
      IntegerMeaning(n);
    }
  }

  lemma IntegerMeaning(n: Numeral)
    requires IsInteger(n.integer)
    ensures var s := Sign(n.minus) + n.integer;
            && AllDigits(n.integer) && (AllDigits(s) || (s != "" && s[0] == '-' && AllDigits(s[1..])))
            && IntOf(s) == if n.minus then 0 - Places(n.integer) else Places(n.integer)
  {
    PlacesAreNat(n.integer);
    var s := Sign(n.minus) + n.integer;
    if n.minus {
      assert s[1..] == n.integer && !IsDigit(s[0]);
    } else {
      assert s == n.integer;
    }
  }

  // ---------- What tables are filled with ----------

  /** The array loop's table after the items, the first of which goes to `index`. */
  function Filled(items: Items, index: nat, entries: map<Key, Value>): map<Key, Value>
    requires ItemsOk(items)
  {
    var entries' := Assign(entries, Num(index), Meaning(items.item));
    if items.Item? then Filled(items.rest, index + 1, entries') else entries'
  }

  lemma {:induction false} FilledAt(items: Items, index: nat, entries: map<Key, Value>, k: Key)
    requires ItemsOk(items)
    ensures if k.Num? && index <= k.n < index + Count(items)
            then var v := ItemMeaning(items, k.n - index + 1);
                 (k in Filled(items, index, entries) <==> v != VNil)
                 && (v != VNil ==> Filled(items, index, entries)[k] == v)
            else (k in Filled(items, index, entries) <==> k in entries)
                 && (k in entries ==> Filled(items, index, entries)[k] == entries[k])
    decreases items
  {
    hide Meaning;
    if items.Item? {
      FilledAt(items.rest, index + 1, Assign(entries, Num(index), Meaning(items.item)), k);
    }
  }

  lemma ItemsMean(items: Items)
    requires ItemsOk(items)
    ensures VTable(Filled(items, 1, map[])) == Meaning(JItems(items))
  {
    hide Filled, ItemMeaning;
    var entries, meant := Filled(items, 1, map[]), Meaning(JItems(items)).entries;
    forall k ensures k in entries <==> k in meant {
      FilledAt(items, 1, map[], k);
    }
    forall k | k in entries ensures entries[k] == meant[k] {
      FilledAt(items, 1, map[], k);
    }
    assert entries == meant;
  }

  /** The object loop's table after the members. */
  function Put(m: Members, entries: map<Key, Value>): map<Key, Value>
    requires MembersOk(m)
  {
    var entries' := Assign(entries, Key.Str(StringMeaning(m.key)), Meaning(m.value));
    if m.Member? then Put(m.rest, entries') else entries'
  }

  lemma {:induction false} PutAt(m: Members, entries: map<Key, Value>, k: Key)
    requires MembersOk(m)
    ensures if k.Str? && k.s in KeysOf(m)
            then var v := MemberMeaning(m, k.s);
                 (k in Put(m, entries) <==> v != VNil) && (v != VNil ==> Put(m, entries)[k] == v)
            else (k in Put(m, entries) <==> k in entries) && (k in entries ==> Put(m, entries)[k] == entries[k])
    decreases m
  {
    hide Meaning, StringMeaning;
    if m.Member? {
      PutAt(m.rest, Assign(entries, Key.Str(StringMeaning(m.key)), Meaning(m.value)), k);
    }
  }

  lemma MembersMean(m: Members)
    requires MembersOk(m)
    ensures VTable(Put(m, map[])) == Meaning(JMembers(m))
  {
    hide Put, MemberMeaning;
    var entries, meant := Put(m, map[]), Meaning(JMembers(m)).entries;
    forall k ensures k in entries <==> k in meant {
      PutAt(m, map[], k);
    }
    forall k | k in entries ensures entries[k] == meant[k] {
      PutAt(m, map[], k);
    }
    assert entries == meant;
  }

  // ---------- Values ----------

  predicate Stops(j: Json, text: string, end: nat) { j.JNumber? ==> NumeralStops(j.numeral, text, end) }

  /** The blanks of the grammar are those that are skipped. */
  lemma BlanksSkipped(text: string, i: nat, blank: string, c: char, rest: string)
    requires Blank(blank) && At(text, i, blank + ([c] + rest))
    requires c != ' ' && c != '\n' && c != '\r' && c != '\t'
    ensures SkipWhitespace(text, i) == i + |blank| && CharIs(text, i + |blank|, c)
    ensures At(text, i + |blank| + 1, rest)
  {
    AtConcat(text, i, blank, [c] + rest);
    AtConcat(text, i + |blank|, [c], rest);
    SkipsWhitespace(text, i, blank);
  }

  /** Behind a value come blanks and one of three characters, none of which continues a numeral. */
  lemma StopsThere(j: Json, text: string, end: nat, blank: string, c: char)
    requires Blank(blank) && At(text, end, blank + [c]) && (c == ',' || c == ']' || c == '}')
    ensures Stops(j, text, end)
  {
    AtConcat(text, end, blank, [c]);
    if blank != "" {
      AtIndex(text, end, blank, 0);
    }
  }

  predicate Kind(j: Json, c: char) {
    match j
    case JNull => c == 'n'
    case JTrue => c == 't'
    case JFalse => c == 'f'
    case JNumber(_) => c == '-' || '0' <= c <= '9'
    case JString(_) => c == '"'
    case JNoItems(_) | JItems(_) => c == '['
    case JNoMembers(_) | JMembers(_) => c == '{'
  }

  lemma Begins(j: Json)
    requires JsonOk(j)
    ensures JText(j) != "" && Kind(j, JText(j)[0])
  {
    if j.JNumber? {
      var n := j.numeral;
      assert !n.minus ==> NumeralText(n)[0] == n.integer[0];
    }
  }

  lemma BeginsAt(text: string, i: nat, j: Json)
    requires JsonOk(j) && At(text, i, JText(j))
    ensures i < |text| && Kind(j, text[i])
  {
    Begins(j);
  }

  /** Blanks in front of a value do not matter. */
  lemma OneAtSkips(text: string, i: nat, blank: string, j: Json)
    requires JsonOk(j) && Blank(blank) && At(text, i, blank + JText(j))
    ensures At(text, i + |blank|, JText(j)) && SkipWhitespace(text, i) == i + |blank|
    ensures OneAt(text, i) == OneAt(text, i + |blank|)
  {
    Begins(j);
    assert JText(j) == [JText(j)[0]] + JText(j)[1..];
    BlanksSkipped(text, i, blank, JText(j)[0], JText(j)[1..]);
    AtConcat(text, i, blank, JText(j));
  }

  lemma LiteralReads(text: string, i: nat, j: Json)
    requires (j.JNull? || j.JTrue? || j.JFalse?) && At(text, i, JText(j))
    ensures OneAt(text, i) == Success(Parse(Meaning(j), i + |JText(j)|))
  {
    assert text[i] == JText(j)[0];
  }

  lemma EmptyReads(text: string, i: nat, j: Json)
    requires JsonOk(j) && At(text, i, JText(j)) && (j.JNoItems? || j.JNoMembers?)
    ensures OneAt(text, i) == Success(Parse(Meaning(j), i + |JText(j)|))
  {
    var open, close := if j.JNoItems? then "[" else "{", if j.JNoItems? then ']' else '}';
    assert JText(j) == open + (j.gap + [close]);
    AtConcat(text, i, open, j.gap + [close]);
    assert [close] == [close] + "";
    BlanksSkipped(text, i + 1, j.gap, close, "");
    assert text[i] == open[0];
  }

  /** An array that is not empty is read by the loop from its first item on. */
  lemma ArrayOpens(text: string, i: nat, items: Items)
    requires ItemsOk(items) && At(text, i, JText(JItems(items)))
    ensures var start := i + 1 + |items.before|;
            && start < |text| && At(text, start, ItemsText(items)) && OneAt(text, i) == ItemsFrom(text, start, 1, map[])
  {
    hide ItemsFrom, ItemsText;
    AtConcat(text, i, "[", items.before + ItemsText(items));
    ItemsBegin(text, i + 1, items);
    assert text[i] == '[';
  }

  lemma ObjectOpens(text: string, i: nat, m: Members)
    requires MembersOk(m) && At(text, i, JText(JMembers(m)))
    ensures var start := i + 1 + |m.before|;
            && start < |text| && At(text, start, MembersText(m)) && OneAt(text, i) == MembersFrom(text, start, map[])
  {
    hide MembersFrom, MembersText;
    AtConcat(text, i, "{", m.before + MembersText(m));
    MembersBegin(text, i + 1, m);
    assert text[i] == '{';
  }

  lemma ScalarReads(text: string, i: nat, j: Json)
    requires JsonOk(j) && At(text, i, JText(j)) && Stops(j, text, i + |JText(j)|) && (j.JNumber? || j.JString?)
    ensures OneAt(text, i) == Success(Parse(Meaning(j), i + |JText(j)|))
  {
    hide NumberAt, StringAt, PartsOk, StringText, NumeralStops, StringMeaning, NumeralMeaning;
    match j
    case JNumber(n) => NumeralReads(text, i, n);
    case JString(parts) => StringReads(text, i, parts);
  }

  lemma {:induction false} ValueReads(text: string, i: nat, j: Json)
    requires JsonOk(j) && At(text, i, JText(j)) && Stops(j, text, i + |JText(j)|)
    ensures OneAt(text, i) == Success(Parse(Meaning(j), i + |JText(j)|))
    decreases j, 0
  {
    hide OneAt, PartsOk, ItemsText, MembersText, ItemsFrom, MembersFrom, Filled, Put, Stops;
    match j
    case JNull | JTrue | JFalse => LiteralReads(text, i, j);
    case JNumber(_) | JString(_) => ScalarReads(text, i, j);
    case JNoItems(_) | JNoMembers(_) => EmptyReads(text, i, j);
    case JItems(items) =>
      ArrayOpens(text, i, items);
      ItemsRead(text, i + 1 + |items.before|, items, 1, map[]);
      ItemsMean(items);
    case JMembers(members) =>
      ObjectOpens(text, i, members);
      MembersRead(text, i + 1 + |members.before|, members, map[]);
      MembersMean(members);
  }

  lemma ItemsBegin(text: string, i: nat, items: Items)
    requires ItemsOk(items) && At(text, i, items.before + ItemsText(items))
    ensures var start := i + |items.before|;
            && start < |text| && text[start] != ']' && SkipWhitespace(text, i) == start
            && At(text, start, ItemsText(items))
  {
    Begins(items.item);
    AtConcat(text, i, items.before, ItemsText(items));
    var t := ItemsText(items);
    assert t == [t[0]] + t[1..] && t[0] == JText(items.item)[0];
    BlanksSkipped(text, i, items.before, t[0], t[1..]);
  }

  lemma MembersBegin(text: string, i: nat, m: Members)
    requires MembersOk(m) && At(text, i, m.before + MembersText(m))
    ensures var start := i + |m.before|;
            && start < |text| && text[start] == '"' && SkipWhitespace(text, i) == start
            && At(text, start, MembersText(m))
  {
    AtConcat(text, i, m.before, MembersText(m));
    var t := MembersText(m);
    assert t[0] == PairText(m)[0] == StringText(m.key)[0] == '"';
    assert t == [t[0]] + t[1..];
    BlanksSkipped(text, i, m.before, t[0], t[1..]);
  }

  function ItemsTail(items: Items): string {
    if items.Item? then "," + (items.rest.before + ItemsText(items.rest)) else "]"
  }

  lemma {:induction false} ItemsRead(text: string, i: nat, items: Items, index: nat, entries: map<Key, Value>)
    requires ItemsOk(items) && At(text, i, ItemsText(items)) && i < |text|
    ensures ItemsFrom(text, i, index, entries)
            == Success(Parse(VTable(Filled(items, index, entries)), i + |ItemsText(items)|))
    decreases items, 0
  {
    hide OneAt, Meaning, JText, JsonOk, Assign, SkipWhitespace;
    var end := i + |JText(items.item)|;
    var behind := end + |items.after|;
    ItemFollowed(text, i, items);
    ValueReads(text, i, items.item);
    if items.Item? {
      ItemsBegin(text, behind + 1, items.rest);
      ItemsRead(text, behind + 1 + |items.rest.before|, items.rest, index + 1,
                Assign(entries, Num(index), Meaning(items.item)));
    }
  }

  lemma ItemFollowed(text: string, i: nat, items: Items)
    requires ItemsOk(items) && At(text, i, ItemsText(items))
    ensures var end := i + |JText(items.item)|;
            var behind := end + |items.after|;
            && At(text, i, JText(items.item)) && Stops(items.item, text, end)
            && SkipWhitespace(text, end) == behind && CharIs(text, behind, if items.Item? then ',' else ']')
            && (items.Item? ==> At(text, behind + 1, items.rest.before + ItemsText(items.rest)))
  {
    hide Stops;
    var end, c := i + |JText(items.item)|, if items.Item? then ',' else ']';
    var rest := if items.Item? then items.rest.before + ItemsText(items.rest) else "";
    assert ItemsText(items) == JText(items.item) + (items.after + ([c] + rest));
    AtConcat(text, i, JText(items.item), items.after + ([c] + rest));
    BlanksSkipped(text, end, items.after, c, rest);
    AtConcat(text, end, items.after, [c] + rest);
    AtConcat(text, end, items.after, [c]);
    StopsThere(items.item, text, end, items.after, c);
  }

  lemma {:induction false} MembersRead(text: string, i: nat, m: Members, entries: map<Key, Value>)
    requires MembersOk(m) && At(text, i, MembersText(m)) && i < |text|
    ensures MembersFrom(text, i, entries) == Success(Parse(VTable(Put(m, entries)), i + |MembersText(m)|))
    decreases m, 1
  {
    hide MemberAt, Meaning, StringMeaning, JsonOk, PartsOk, Assign, SkipWhitespace, PairText, JText;
    var end := i + |PairText(m)|;
    var behind := end + |m.after|;
    PairFollowed(text, i, m);
    PairReads(text, i, m);
    if m.Member? {
      MembersBegin(text, behind + 1, m.rest);
      MembersRead(text, behind + 1 + |m.rest.before|, m.rest,
                  Assign(entries, Key.Str(StringMeaning(m.key)), Meaning(m.value)));
    }
  }

  lemma PairFollowed(text: string, i: nat, m: Members)
    requires MembersOk(m) && At(text, i, MembersText(m))
    ensures var end := i + |PairText(m)|;
            var behind := end + |m.after|;
            && At(text, i, PairText(m)) && Stops(m.value, text, end)
            && SkipWhitespace(text, end) == behind && CharIs(text, behind, if m.Member? then ',' else '}')
            && (m.Member? ==> At(text, behind + 1, m.rest.before + MembersText(m.rest)))
  {
    hide Stops, PairText;
    var end, c := i + |PairText(m)|, if m.Member? then ',' else '}';
    var rest := if m.Member? then m.rest.before + MembersText(m.rest) else "";
    assert MembersText(m) == PairText(m) + (m.after + ([c] + rest));
    AtConcat(text, i, PairText(m), m.after + ([c] + rest));
    BlanksSkipped(text, end, m.after, c, rest);
    AtConcat(text, end, m.after, [c] + rest);
    AtConcat(text, end, m.after, [c]);
    StopsThere(m.value, text, end, m.after, c);
  }

  /** A key, blanks, a colon, blanks, and a value. */
  lemma {:induction false} PairReads(text: string, i: nat, m: Members)
    requires MembersOk(m) && At(text, i, PairText(m)) && i < |text| && Stops(m.value, text, i + |PairText(m)|)
    ensures MemberAt(text, i) == Success(Parse((StringMeaning(m.key), Meaning(m.value)),
                                               SkipWhitespace(text, i + |PairText(m)|)))
    decreases m, 0
  {
    hide OneAt, StringAt, Meaning, StringMeaning, JText, JsonOk, PartsOk, StringText;
    var key := StringText(m.key);
    var colon := i + |key| + |m.beforeColon|;
    AtConcat(text, i, key, m.beforeColon + (":" + (m.afterColon + JText(m.value))));
    BlanksSkipped(text, i + |key|, m.beforeColon, ':', m.afterColon + JText(m.value));
    OneAtSkips(text, colon + 1, m.afterColon, m.value);
    StringReads(text, i, m.key);
    ValueReads(text, colon + 1 + |m.afterColon|, m.value);
  }

  // ---------- Whole texts ----------

  lemma {:induction false} SpaceBefore(text: string, blank: string, i: nat)
    requires Blank(blank) && At(text, i, blank) && i + |blank| < |text| && !IsSpace(text[i + |blank|])
    ensures SkipSpace(text, i) == i + |blank|
    decreases |blank|
  {
    if blank != "" {
      SpaceBefore(text, blank[1..], i + 1);
    }
  }

  /** The checks in front of decoding let the text of a value pass. */
  lemma ChecksPass(text: string, before: string, j: Json)
    requires Blank(before) && JsonOk(j) && At(text, 0, before) && At(text, |before|, JText(j))
    ensures SkipSpace(text, 0) == |before| < |text| && text[|before|] != '<' && text[0] != '\0'
  {
    hide OneAt, JsonOk, JText;
    BeginsAt(text, |before|, j);
    SpaceBefore(text, before, 0);
    if before != "" {
      AtIndex(text, 0, before, 0);
    }
  }

  /**
   Every text of the grammar, with any blanks in front and with anything behind it, decodes to what it
   means. Behind a numeral there must be nothing that continues it, and the second character of the text
   must not be NUL, by which `decode` knows texts that are not UTF-8.
   */
  lemma GrammarDecodes(before: string, j: Json, rest: string)
    requires Blank(before) && JsonOk(j) && Stops(j, before + JText(j) + rest, |before| + |JText(j)|)
    requires |before + JText(j) + rest| >= 2 ==> (before + JText(j) + rest)[1] != '\0'
    ensures Decode(before + JText(j) + rest) == Success(Meaning(j))
  {
    hide OneAt, Meaning, Stops, JsonOk, JText, SkipSpace;
    var text := before + JText(j) + rest;
    AtWhole("", before + JText(j), rest);
    assert "" + (before + JText(j)) + rest == text;
    AtConcat(text, 0, before, JText(j));
    OneAtSkips(text, 0, before, j);
    ValueReads(text, |before|, j);
    ChecksPass(text, before, j);
  }
}
