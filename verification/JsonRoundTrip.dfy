/** Decoding what was encoded gives the value back, compact or pretty. */
module JsonRoundTrip {
  import opened Wrappers
  import opened JsonStrings
  import opened LuaValues
  import opened JsonTables
  import opened JsonEncoder
  import opened JsonDecoder
  import opened JsonCycles
  import opened JsonLayout

  // ---------- Which values ----------

  /** Every table in the tree is keyed by strings only or by positive integers only. */
  ghost predicate PlainValue(v: Value)
    decreases v
  {
    v.VTable? ==>
      && ((forall k :: k in v.entries ==> k.Str?) || (forall k :: k in v.entries ==> k.Num? && k.n > 0))
      && forall k :: k in v.entries ==> PlainValue(v.entries[k])
  }

  lemma {:induction false} DenotesUnique(h: Heap, r: Ref, v: Value, w: Value)
    requires Denotes(h, r, v) && Denotes(h, r, w)
    ensures v == w
    decreases v
  {
    if r.Table? {
      forall k | k in v.entries ensures v.entries[k] == w.entries[k] {
        DenotesUnique(h, h[r.id][k], v.entries[k], w.entries[k]);
      }
    }
  }

  /** The parents denote trees that contain `v` properly. */
  ghost predicate Above(h: Heap, parents: set<TableId>, v: Value) {
    forall p :: p in parents ==> exists w :: Denotes(h, Table(p), w) && v < w
  }

  lemma NotItsOwnParent(h: Heap, id: TableId, parents: set<TableId>, v: Value)
    requires Denotes(h, Table(id), v) && Above(h, parents, v)
    ensures id !in parents
  {
    if id in parents {
      var w :| Denotes(h, Table(id), w) && v < w;
      DenotesUnique(h, Table(id), v, w);
    }
  }

  lemma AboveEntry(h: Heap, id: TableId, parents: set<TableId>, v: Value, k: Key)
    requires Denotes(h, Table(id), v) && Above(h, parents, v) && k in v.entries
    ensures Above(h, parents + {id}, v.entries[k])
  {
    assert v.entries[k] < v;
  }

  lemma PlainTable(h: Heap, id: TableId, v: Value)
    requires Closed(h) && Denotes(h, Table(id), v) && PlainValue(v)
    ensures id in h && Plain(h[id]) && !ShapeOf(h[id]).Broken?
  {
    hide ShapeOf;
    assert forall k :: k in h[id] ==> k in v.entries && Denotes(h, h[id][k], v.entries[k]);
    PlainIsNotFlawed(h[id]);
  }

  lemma {:induction false} EncodeSucceeds(h: Heap, r: Ref, v: Value, parents: set<TableId>, style: Style,
      indent: string)
    requires Closed(h) && InHeap(h, r) && Denotes(h, r, v) && PlainValue(v) && Above(h, parents, v)
    ensures ValueText(h, r, parents, style, indent).Success?
    decreases v
  {
    hide TableText, ShapeOf;
    if r.Table? {
      var t := h[r.id];
      NotItsOwnParent(h, r.id, parents, v);
      PlainTable(h, r.id, v);
      TableFailsIff(h, t, parents + {r.id}, style, indent);
      var inner := InnerIndent(t, style, indent);
      forall r' | Refers(t, r') ensures !ValueFails(h, r', parents + {r.id}, style, inner) {
        var k :| k in t && t[k] == r';
        assert k in v.entries;
        AboveEntry(h, r.id, parents, v, k);
        EncodeSucceeds(h, r', v.entries[k], parents + {r.id}, style, inner);
      }
    }
  }

  // ---------- Objects as lists ----------

  /** A member without the blanks in front. */
  function Core(key: string, value: string, style: Style): string {
    JsonStringLiteral(key) + (":" + Gap(style)) + value
  }

  function Lead(style: Style, indent: string): string {
    if style.Compact? then "" else SubtableIndent(style, indent)
  }

  function Break(style: Style): string { if style.Compact? then "" else "\n" }

  function Trail(style: Style, indent: string): string { if style.Compact? then "" else "\n" + indent }

  ghost function CoreTexts(h: Heap, keys: seq<Key>, entries: Entries, parents: set<TableId>, style: Style,
      indent: string)
    : (cores: seq<string>)
    requires Closed(h) && AllInHeap(h, entries) && forall j :: 0 <= j < |keys| ==> keys[j].Str?
    requires MemberTexts(h, keys, entries, parents, style, indent).Success?
    ensures |cores| == |keys|
    decreases |keys|
  {
    if keys == [] then []
    else
      MembersUnfold(h, keys, entries, parents, style, indent);
      var value := ValueText(h, Lookup(entries, keys[0]), parents, style, SubtableIndent(style, indent)).value;
      [Core(keys[0].s, value, style)] + CoreTexts(h, keys[1..], entries, parents, style, indent)
  }

  lemma MemberIsLed(key: string, value: string, style: Style, indent: string)
    ensures MemberText(key, value, style, indent) == Lead(style, indent) + Core(key, value, style)
  {
    var literal := JsonStringLiteral(key);
    if style.Compact? {
      assert ":" + "" == ":";
      assert literal + ":" + value == "" + (literal + ":" + value);
    } else {
      var lead := SubtableIndent(style, indent);
      assert ":" + " " == ": ";
      assert lead + literal + ": " + value == lead + (literal + ": " + value);
    }
  }

  lemma {:induction false} MembersAreLed(h: Heap, keys: seq<Key>, entries: Entries, parents: set<TableId>,
      style: Style, indent: string)
    requires Closed(h) && AllInHeap(h, entries) && forall j :: 0 <= j < |keys| ==> keys[j].Str?
    requires MemberTexts(h, keys, entries, parents, style, indent).Success?
    ensures MemberTexts(h, keys, entries, parents, style, indent).value ==
            WithLead(Lead(style, indent), CoreTexts(h, keys, entries, parents, style, indent))
    decreases |keys|
  {
    hide ValueText, MemberText, SubtableIndent, Core, Lead;
    if keys != [] {
      MembersUnfold(h, keys, entries, parents, style, indent);
      var value := ValueText(h, Lookup(entries, keys[0]), parents, style, SubtableIndent(style, indent)).value;
      MemberIsLed(keys[0].s, value, style, indent);
      MembersAreLed(h, keys[1..], entries, parents, style, indent);
      var members := MemberTexts(h, keys, entries, parents, style, indent).value;
      assert members == [members[0]] + members[1..];
      var cores := CoreTexts(h, keys, entries, parents, style, indent);
      assert cores[1..] == CoreTexts(h, keys[1..], entries, parents, style, indent);
    }
  }

  lemma ObjectIsLaid(cores: seq<string>, style: Style, indent: string)
    requires cores != []
    ensures ObjectText(WithLead(Lead(style, indent), cores), style, indent) ==
            "{" + Laid(cores, Break(style) + Lead(style, indent), Trail(style, indent), '}')
  {
    hide Laid, Join, WithLead, SubtableIndent;
    JoinIsLaid(cores, Break(style), Lead(style, indent), Trail(style, indent), '}');
    assert "," + "" == "," && "," + "\n" == ",\n";
    Braces(Join(WithLead(Lead(style, indent), cores), "," + Break(style)), indent);
  }

  lemma Braces(joined: string, indent: string)
    ensures "{" + joined + "}" == "{" + ("" + joined + "" + "}")
    ensures "{\n" + joined + "\n" + indent + "}" == "{" + ("\n" + joined + ("\n" + indent) + "}")
  {
  }

  // ---------- Reading what was written ----------

  lemma LeafInverts(r: Ref, text: string, i: nat)
    requires !r.Table? && LeafText(r).Success?
    requires At(text, i, LeafText(r).value) && NumberEnds(text, i + |LeafText(r).value|)
    ensures OneAt(text, i) == Success(Parse(LeafValue(r), i + |LeafText(r).value|))
  {
    hide NumberAt, Decimal, StringAt, JsonStringLiteral;
    var e := LeafText(r).value;
    StartsLeaf(r);
    LeadsTo(text, i, "", e);
    AtBound(text, i, e);
    match r
    case Int(n) => NumberInverts(text, i, n); DecimalHead(n);
    case Text(s) => StringRoundTrip(text, i, s);
    case _ =>
  }

  lemma DecimalHead(n: int)
    ensures Decimal(n) != "" && (Decimal(n)[0] == '-' || IsDigit(Decimal(n)[0]))
  {
  }

  function LeafValue(r: Ref): Value
    requires !r.Table?
  {
    match r
    case Bool(b) => VBool(b)
    case Int(n) => VInt(n)
    case Text(s) => VText(s)
    case _ => VNil
  }

  /** A member read where its core stands, given that its value reads as `v`. */
  lemma CoreInverts(text: string, i: nat, key: string, value: string, style: Style, v: Value)
    requires At(text, i, Core(key, value, style)) && Starts(value)
    requires OneAt(text, i + |JsonStringLiteral(key)| + 1 + |Gap(style)|) ==
             Success(Parse(v, i + |Core(key, value, style)|))
    ensures MemberAt(text, i) == Success(Parse((key, v), SkipWhitespace(text, i + |Core(key, value, style)|)))
  {
    hide JsonStringLiteral, OneAt, StringAt, Starts;
    var colon := i + |JsonStringLiteral(key)|;
    CoreAt(text, i, key, value, style);
    StringRoundTrip(text, i, key);
    SkipsTo(text, colon, "", ':');
    LeadsTo(text, colon + 1, Gap(style), value);
  }

  /** Where the three pieces of a core stand. */
  lemma CoreAt(text: string, i: nat, key: string, value: string, style: Style)
    requires At(text, i, Core(key, value, style))
    ensures var colon := i + |JsonStringLiteral(key)|;
            && At(text, i, JsonStringLiteral(key)) && At(text, colon, "" + ":") && At(text, colon + 1, Gap(style))
            && At(text, colon + 1 + |Gap(style)|, value)
            && colon + 1 + |Gap(style)| + |value| == i + |Core(key, value, style)|
  {
    hide JsonStringLiteral, Gap;
    AtThree(text, i, JsonStringLiteral(key), ":" + Gap(style), value);
    AtConcat(text, i + |JsonStringLiteral(key)|, ":", Gap(style));
    assert "" + ":" == ":";
  }

  /** What has been read of an array when item `n` is done. */
  function Upto(entries: map<Key, Value>, n: nat): map<Key, Value> {
    map k | k in entries && k.Num? && k.n <= n :: entries[k]
  }

  /** What has been read of an object when the keys of `done` are done. */
  function Among(entries: map<Key, Value>, done: seq<Key>): map<Key, Value> {
    map k | k in entries && k in done :: entries[k]
  }

  ghost predicate Fits(h: Heap, id: TableId, v: Value) {
    Closed(h) && Denotes(h, Table(id), v) && PlainValue(v)
  }

  lemma EntryFits(h: Heap, id: TableId, v: Value, k: Key)
    requires Fits(h, id, v)
    ensures id in h && v.VTable? && AllInHeap(h, h[id])
    ensures k in h[id] <==> k in v.entries
    ensures k in v.entries ==>
      Denotes(h, h[id][k], v.entries[k]) && PlainValue(v.entries[k]) && v.entries[k] < v && v.entries[k] != VNil
  {
  }

  lemma {:induction false} ItemsInvert(h: Heap, id: TableId, v: Value, k: nat, maximum: nat, parents: set<TableId>,
                                       style: Style, indent: string, text: string, i: nat, items: seq<string>)
    requires Fits(h, id, v) && id in h && AllInHeap(h, h[id]) && BlankStyle(style) && AllWhitespace(indent)
    requires ShapeOf(h[id]) == Array(maximum) && 1 <= k <= maximum
    requires ItemTexts(h, h[id], k, maximum, parents, style, indent) == Success(items)
    requires items != [] && At(text, i, Laid(items, Gap(style), Gap(style), ']'))
    ensures ItemsFrom(text, SkipWhitespace(text, i), k, Upto(v.entries, k - 1)) ==
            Success(Parse(v, i + |Laid(items, Gap(style), Gap(style), ']')|))
    decreases v, 1, maximum - k
  {
    hide ShapeOf, Starts, ValueText, ItemTexts, OneAt, Laid, SkipWhitespace, At, NumberEnds, Upto, ItemsFrom,
      Denotes, PlainValue;
    var gap, t := Gap(style), h[id];
    ItemsUnfold(h, t, k, maximum, parents, style, indent);
    ValueStarts(h, Lookup(t, Num(k)), parents, style, indent);
    LaidFirst(text, i, items, gap, gap, ']');
    var start := i + |gap|;
    ItemInverts(h, id, v, k, parents, style, indent, text, start);
    var item := if Num(k) in v.entries then v.entries[Num(k)] else VNil;
    EntryFits(h, id, v, Num(k));
    AssignItem(v.entries, k, item);
    ItemsStep(text, start, k, Upto(v.entries, k - 1), item, start + |items[0]|);
    if k == maximum {
      ArrayIsRead(h, id, v, maximum);
    } else {
      ItemsInvert(h, id, v, k + 1, maximum, parents, style, indent, text, start + |items[0]| + 1, items[1..]);
    }
  }

  /** One round of the array loop. */
  lemma ItemsStep(text: string, p: nat, k: nat, entries: map<Key, Value>, v: Value, next: nat)
    requires p < |text| && OneAt(text, p) == Success(Parse(v, next))
    ensures var end := SkipWhitespace(text, next);
            && (CharIs(text, end, ']') ==>
                  ItemsFrom(text, p, k, entries) == Success(Parse(VTable(Assign(entries, Num(k), v)), end + 1)))
            && (CharIs(text, end, ',') ==>
                  ItemsFrom(text, p, k, entries) ==
                  ItemsFrom(text, SkipWhitespace(text, end + 1), k + 1, Assign(entries, Num(k), v)))
  {
    hide OneAt, Assign;
  }

  lemma {:induction false} ItemInverts(h: Heap, id: TableId, v: Value, k: nat, parents: set<TableId>,
                                       style: Style, indent: string, text: string, start: nat)
    requires Fits(h, id, v) && id in h && AllInHeap(h, h[id]) && BlankStyle(style) && AllWhitespace(indent)
    requires ValueText(h, Lookup(h[id], Num(k)), parents, style, indent).Success?
    requires var e := ValueText(h, Lookup(h[id], Num(k)), parents, style, indent).value;
             At(text, start, e) && NumberEnds(text, start + |e|)
    ensures v.VTable?
    ensures var item := if Num(k) in v.entries then v.entries[Num(k)] else VNil;
            OneAt(text, start) ==
            Success(Parse(item, start + |ValueText(h, Lookup(h[id], Num(k)), parents, style, indent).value|))
    decreases v, 0
  {
    hide OneAt;
    EntryFits(h, id, v, Num(k));
    if Num(k) in v.entries {
      ValueInverts(h, h[id][Num(k)], v.entries[Num(k)], parents, style, indent, text, start);
    } else {
      LeafInverts(Nil, text, start);
    }
  }

  lemma AssignItem(entries: map<Key, Value>, k: nat, item: Value)
    requires k > 0
    requires if Num(k) in entries then item == entries[Num(k)] && item != VNil else item == VNil
    ensures Assign(Upto(entries, k - 1), Num(k), item) == Upto(entries, k)
  {
  }

  lemma ArrayIsRead(h: Heap, id: TableId, v: Value, maximum: nat)
    requires Fits(h, id, v) && id in h && ShapeOf(h[id]) == Array(maximum)
    ensures v.VTable? && Upto(v.entries, maximum) == v.entries && Upto(v.entries, 0) == map[]
  {
    ArrayKeys(h[id], maximum);
    assert forall k :: k in v.entries ==> k in h[id];
  }

  lemma {:induction false} ValueInverts(h: Heap, r: Ref, v: Value, parents: set<TableId>, style: Style, indent: string,
                                        text: string, i: nat)
    requires Closed(h) && InHeap(h, r) && Denotes(h, r, v) && PlainValue(v)
    requires BlankStyle(style) && AllWhitespace(indent)
    requires ValueText(h, r, parents, style, indent).Success?
    requires var e := ValueText(h, r, parents, style, indent).value; At(text, i, e) && NumberEnds(text, i + |e|)
    ensures OneAt(text, i) == Success(Parse(v, i + |ValueText(h, r, parents, style, indent).value|))
    decreases v, 2
  {
    hide OneAt, ShapeOf, Plain;
    if !r.Table? {
      LeafInverts(r, text, i);
      LeafDenotes(h, r, v);
    } else {
      var t, parents' := h[r.id], parents + {r.id};
      EntryFits(h, r.id, v, Num(0));
      PlainTable(h, r.id, v);
      match ShapeOf(t)
      case Empty => EmptyInverts(h, r.id, v, text, i);
      case Array(maximum) => ArrayInverts(h, r.id, v, maximum, parents', style, indent, text, i);
      case Object(_, _) => ObjectInverts(h, r.id, v, parents', style, indent, text, i);
    }
  }

  lemma LeafDenotes(h: Heap, r: Ref, v: Value)
    requires !r.Table? && Denotes(h, r, v)
    ensures v == LeafValue(r)
  {
  }

  lemma EmptyInverts(h: Heap, id: TableId, v: Value, text: string, i: nat)
    requires Fits(h, id, v) && id in h && ShapeOf(h[id]) == Empty && At(text, i, "[]")
    ensures OneAt(text, i) == Success(Parse(v, i + 2))
  {
    EmptyRefersNothing(h[id]);
    assert v.entries == map[] by {
      assert forall k :: k in h[id] ==> Refers(h[id], h[id][k]);
    }
    AtIndex(text, i, "[]", 0);
    AtIndex(text, i, "[]", 1);
    assert SkipWhitespace(text, i) == i && SkipWhitespace(text, i + 1) == i + 1;
  }

  /** An opening bracket in front of a list takes the reader to the list's first part. */
  lemma Opens(text: string, i: nat, open: char, parts: seq<string>, lead: string, trail: string, close: char)
    requires parts != [] && At(text, i, [open] + Laid(parts, lead, trail, close)) && Solid(open)
    requires AllWhitespace(lead) && AllWhitespace(trail) && Closing(close) && Starts(parts[0])
    ensures CharIs(text, i, open) && SkipWhitespace(text, i) == i && At(text, i + 1, Laid(parts, lead, trail, close))
    ensures !CharIs(text, SkipWhitespace(text, i + 1), ']') && !CharIs(text, SkipWhitespace(text, i + 1), '}')
  {
    hide Laid;
    AtConcat(text, i, [open], Laid(parts, lead, trail, close));
    AtIndex(text, i, [open], 0);
    LaidFirst(text, i + 1, parts, lead, trail, close);
  }

  lemma {:induction false} ArrayInverts(h: Heap, id: TableId, v: Value, maximum: nat, parents: set<TableId>,
                                        style: Style, indent: string, text: string, i: nat)
    requires Fits(h, id, v) && id in h && AllInHeap(h, h[id]) && ShapeOf(h[id]) == Array(maximum)
    requires BlankStyle(style) && AllWhitespace(indent)
    requires TableText(h, h[id], parents, style, indent).Success?
    requires At(text, i, TableText(h, h[id], parents, style, indent).value)
    ensures OneAt(text, i) == Success(Parse(v, i + |TableText(h, h[id], parents, style, indent).value|))
    decreases v, 1, maximum + 1
  {
    hide ShapeOf, ItemTexts, ItemsFrom, Starts, Laid, SkipWhitespace, ArrayText, Upto;
    var t, gap := h[id], Gap(style);
    ArrayKeys(t, maximum);
    var items := ItemTexts(h, t, 1, maximum, parents, style, indent).value;
    ItemsUnfold(h, t, 1, maximum, parents, style, indent);
    ValueStarts(h, Lookup(t, Num(1)), parents, style, indent);
    ArrayIsLaid(items, style);
    Opens(text, i, '[', items, gap, gap, ']');
    ItemsInvert(h, id, v, 1, maximum, parents, style, indent, text, i + 1, items);
    ArrayIsRead(h, id, v, maximum);
  }

  lemma PlainObject(t: Entries)
    requires Plain(t) && ShapeOf(t).Object?
    ensures ShapeOf(t).entries == t && forall k :: k in ShapeOf(t).keys <==> k in t
    ensures forall k :: k in t ==> k.Str?
  {
    OrderedMembers(StringKeys(t));
    assert NumberKeys(t) == {};
    assert |multiset(Ordered(NumberKeys(t)))| == |Ordered(NumberKeys(t))|;
    assert Ordered(NumberKeys(t)) == [];
  }

  lemma BlankLayout(style: Style, indent: string)
    requires BlankStyle(style) && AllWhitespace(indent)
    ensures AllWhitespace(Break(style) + Lead(style, indent)) && AllWhitespace(Trail(style, indent))
    ensures AllWhitespace(SubtableIndent(style, indent)) && AllWhitespace(Gap(style))
  {
  }

  lemma StartsCore(key: string, value: string, style: Style)
    ensures Starts(Core(key, value, style)) && Core(key, value, style)[0] == '"'
  {
    StartsLiteral(key, ":" + Gap(style) + value);
    assert Core(key, value, style) == JsonStringLiteral(key) + (":" + Gap(style) + value);
  }

  lemma AssignMember(entries: map<Key, Value>, done: seq<Key>, k: Key)
    requires k in entries && entries[k] != VNil
    ensures Assign(Among(entries, done), k, entries[k]) == Among(entries, done + [k])
  {
  }

  lemma {:induction false} MembersInvert(h: Heap, id: TableId, v: Value, done: seq<Key>, todo: seq<Key>,
      parents: set<TableId>,
                                         style: Style, indent: string, text: string, i: nat, cores: seq<string>)
    requires Fits(h, id, v) && id in h && AllInHeap(h, h[id]) && BlankStyle(style) && AllWhitespace(indent)
    requires todo != [] && forall j :: 0 <= j < |todo| ==> todo[j].Str? && todo[j] in h[id]
    requires forall k :: k in h[id] ==> k in done + todo
    requires MemberTexts(h, todo, h[id], parents, style, indent).Success?
    requires cores == CoreTexts(h, todo, h[id], parents, style, indent)
    requires At(text, i, Laid(cores, Break(style) + Lead(style, indent), Trail(style, indent), '}'))
    ensures v.VTable?
    ensures MembersFrom(text, SkipWhitespace(text, i), Among(v.entries, done)) ==
            Success(Parse(v, i + |Laid(cores, Break(style) + Lead(style, indent), Trail(style, indent), '}')|))
    decreases v, 1, |todo|
  {
    hide Starts, ValueText, MemberTexts, OneAt, Core, MemberAt, Lead, Break, Trail, SubtableIndent, Among, Laid,
      SkipWhitespace, At, NumberEnds, MembersFrom, CoreTexts, Denotes, PlainValue;
    var t, k := h[id], todo[0];
    var lead, trail := Break(style) + Lead(style, indent), Trail(style, indent);
    BlankLayout(style, indent);
    CoresUnfold(h, todo, t, parents, style, indent);
    LaidFirst(text, i, cores, lead, trail, '}');
    EntryFits(h, id, v, k);
    MemberInverts(h, id, v, k, parents, style, indent, text, i + |lead|);
    AssignMember(v.entries, done, k);
    MembersStep(text, i + |lead|, Among(v.entries, done), k.s, v.entries[k], SkipWhitespace(text,
        i + |lead| + |cores[0]|));
    assert (done + [k]) + todo[1..] == done + todo;
    if |todo| == 1 {
      assert done + todo == done + [k];
      ObjectIsRead(h, id, v, done + [k]);
    } else {
      MembersInvert(h, id, v, done + [k], todo[1..], parents, style, indent, text,
                    i + |lead| + |cores[0]| + 1, cores[1..]);
    }
  }

  /** One round of the object loop. */
  lemma MembersStep(text: string, p: nat, entries: map<Key, Value>, k: string, v: Value, next: nat)
    requires p < |text| && MemberAt(text, p) == Success(Parse((k, v), next))
    ensures CharIs(text, next, '}') ==>
              MembersFrom(text, p, entries) == Success(Parse(VTable(Assign(entries, Str(k), v)), next + 1))
    ensures CharIs(text, next, ',') ==>
              MembersFrom(text, p, entries) ==
              MembersFrom(text, SkipWhitespace(text, next + 1), Assign(entries, Str(k), v))
  {
    hide MemberAt, Assign;
  }

  lemma CoresUnfold(h: Heap, keys: seq<Key>, entries: Entries, parents: set<TableId>, style: Style, indent: string)
    requires Closed(h) && AllInHeap(h, entries) && keys != [] && forall j :: 0 <= j < |keys| ==> keys[j].Str?
    requires MemberTexts(h, keys, entries, parents, style, indent).Success?
    ensures InHeap(h, Lookup(entries, keys[0]))
    ensures ValueText(h, Lookup(entries, keys[0]), parents, style, SubtableIndent(style, indent)).Success?
    ensures MemberTexts(h, keys[1..], entries, parents, style, indent).Success?
    ensures var cores := CoreTexts(h, keys, entries, parents, style, indent);
            var value := ValueText(h, Lookup(entries, keys[0]), parents, style, SubtableIndent(style, indent)).value;
            && |cores| == |keys| && cores[0] == Core(keys[0].s, value, style) && Starts(cores[0])
            && cores[1..] == CoreTexts(h, keys[1..], entries, parents, style, indent)
  {
    hide Starts, Core, ValueText, SubtableIndent;
    MembersUnfold(h, keys, entries, parents, style, indent);
    StartsCore(keys[0].s, ValueText(h, Lookup(entries, keys[0]), parents, style, SubtableIndent(style,
        indent)).value, style);
  }

  lemma ObjectIsRead(h: Heap, id: TableId, v: Value, done: seq<Key>)
    requires Fits(h, id, v) && id in h && forall k :: k in h[id] ==> k in done
    ensures v.VTable? && Among(v.entries, done) == v.entries
  {
    assert forall k :: k in v.entries ==> k in h[id];
  }

  lemma {:induction false} MemberInverts(h: Heap, id: TableId, v: Value, k: Key, parents: set<TableId>,
                                         style: Style, indent: string, text: string, start: nat)
    requires Fits(h, id, v) && id in h && AllInHeap(h, h[id]) && BlankStyle(style) && AllWhitespace(indent)
    requires k in h[id] && k.Str?
    requires ValueText(h, Lookup(h[id], k), parents, style, SubtableIndent(style, indent)).Success?
    requires var core := Core(k.s, ValueText(h, Lookup(h[id], k), parents, style, SubtableIndent(style,
        indent)).value, style);
             At(text, start, core) && NumberEnds(text, start + |core|)
    ensures v.VTable? && k in v.entries
    ensures var core := Core(k.s, ValueText(h, Lookup(h[id], k), parents, style, SubtableIndent(style,
        indent)).value, style);
            start < |text| &&
            MemberAt(text, start) == Success(Parse((k.s, v.entries[k]), SkipWhitespace(text, start + |core|)))
    decreases v, 0
  {
    hide OneAt, ValueText, Starts, MemberAt, SubtableIndent;
    var inner := SubtableIndent(style, indent);
    var value := ValueText(h, Lookup(h[id], k), parents, style, inner).value;
    BlankLayout(style, indent);
    EntryFits(h, id, v, k);
    CoreAt(text, start, k.s, value, style);
    ValueStarts(h, Lookup(h[id], k), parents, style, inner);
    ValueInverts(h, h[id][k], v.entries[k], parents, style, inner, text,
        start + |JsonStringLiteral(k.s)| + 1 + |Gap(style)|);
    CoreInverts(text, start, k.s, value, style, v.entries[k]);
    StartsCore(k.s, value, style);
    LeadsTo(text, start, "", Core(k.s, value, style));
  }

  lemma {:induction false} ObjectInverts(h: Heap, id: TableId, v: Value, parents: set<TableId>,
                                         style: Style, indent: string, text: string, i: nat)
    requires Fits(h, id, v) && id in h && AllInHeap(h, h[id]) && ShapeOf(h[id]).Object? && Plain(h[id])
    requires BlankStyle(style) && AllWhitespace(indent)
    requires TableText(h, h[id], parents, style, indent).Success?
    requires At(text, i, TableText(h, h[id], parents, style, indent).value)
    ensures OneAt(text, i) == Success(Parse(v, i + |TableText(h, h[id], parents, style, indent).value|))
    decreases v, 1, |ShapeOf(h[id]).keys| + 1
  {
    hide ShapeOf, Plain, MemberTexts, MembersFrom, Starts, Laid, SkipWhitespace, ObjectText, Among, CoreTexts,
      Lead, Break, Trail, SubtableIndent, ValueText;
    var t, keys := h[id], ShapeOf(h[id]).keys;
    PlainObject(t);
    ShapeInHeap(h, t);
    ObjectHasKeys(t);
    BlankLayout(style, indent);
    var cores := CoreTexts(h, keys, t, parents, style, indent);
    MembersAreLed(h, keys, t, parents, style, indent);
    CoresUnfold(h, keys, t, parents, style, indent);
    ObjectIsLaid(cores, style, indent);
    Opens(text, i, '{', cores, Break(style) + Lead(style, indent), Trail(style, indent), '}');
    assert forall k :: k in t ==> k in [] + keys;
    MembersInvert(h, id, v, [], keys, parents, style, indent, text, i + 1, cores);
    NoneAmong(v.entries);
  }

  lemma NoneAmong(entries: map<Key, Value>)
    ensures Among(entries, []) == map[]
  {
  }

  // ---------- The theorem ----------

  lemma DecodesOne(text: string, v: Value)
    requires Starts(text) && OneAt(text, 0) == Success(Parse(v, |text|))
    ensures Decode(text) == Success(v)
  {
    hide OneAt;
    assert SkipSpace(text, 0) == 0;
  }

  /** `r` in heap `h` is the finite tree `v`, of plain tables. Tables may be shared. */
  ghost predicate IsTree(h: Heap, r: Ref, v: Value) {
    Closed(h) && InHeap(h, r) && Denotes(h, r, v) && PlainValue(v)
  }

  /** Encoding succeeds, and decoding the text gives `v`. */
  ghost predicate ComesBack(h: Heap, r: Ref, style: Style, v: Value)
    requires Closed(h) && InHeap(h, r)
  {
    exists text :: ValueText(h, r, {}, style, "") == Success(text) && Decode(text) == Success(v)
  }

  /**
   The round trip. Let a value of any heap be a finite tree of nil, booleans, integers, strings and
   tables keyed only by strings or only by positive integers; holes and shared tables are allowed.
   Then encoding succeeds, compact or pretty with any blank indent, and decoding its text gives the
   same tree.
   */
  lemma RoundTrip(h: Heap, r: Ref, v: Value, style: Style)
    requires IsTree(h, r, v) && BlankStyle(style)
    ensures ComesBack(h, r, style, v)
  {
    hide ValueText, OneAt, Starts, Decode;
    EncodeSucceeds(h, r, v, {}, style, "");
    var text := ValueText(h, r, {}, style, "").value;
    AtWhole("", text, "");
    assert "" + text + "" == text;
    ValueInverts(h, r, v, {}, style, "", text, 0);
    ValueStarts(h, r, {}, style, "");
    DecodesOne(text, v);
  }
}
