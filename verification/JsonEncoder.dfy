/**
 The encoder of term_gui/json.lua with its default options, compact or pretty. The `...Text`
 functions say what is written for a value; the class holds the table of parents and carries the
 loops of the source.
 */
module JsonEncoder {
  import opened Wrappers
  import opened JsonStrings
  import opened LuaValues
  import opened JsonTables

  datatype Style = Compact | Pretty(indent: string)

  const DEFAULT_PRETTY := Pretty("  ")

  // ---------- What is written ----------

  function Join(parts: seq<string>, separator: string): string {
    if parts == [] then ""
    else if |parts| == 1 then parts[0]
    else parts[0] + separator + Join(parts[1..], separator)
  }

  function ArrayText(items: seq<string>, style: Style): string {
    if style.Compact? then "[" + Join(items, ",") + "]" else "[ " + Join(items, ", ") + " ]"
  }

  function ObjectText(members: seq<string>, style: Style, indent: string): string {
    if style.Compact? then "{" + Join(members, ",") + "}"
    else "{\n" + Join(members, ",\n") + "\n" + indent + "}"
  }

  function MemberText(key: string, value: string, style: Style, indent: string): string {
    if style.Compact? then JsonStringLiteral(key) + ":" + value
    else SubtableIndent(style, indent) + JsonStringLiteral(key) + ": " + value
  }

  function SubtableIndent(style: Style, indent: string): string {
    if style.Compact? then indent else indent + style.indent
  }

  function LeafText(r: Ref): Result<string, EncodeError>
    requires !r.Table?
  {
    match r
    case Nil => Success("null")
    case Bool(b) => Success(if b then "true" else "false")
    case Int(n) => Success(Decimal(n))
    case Text(s) => Success(JsonStringLiteral(s))
    case Opaque => Failure(CannotConvert)
  }

  ghost predicate AllInHeap(h: Heap, t: Entries) {
    forall k :: k in t ==> InHeap(h, t[k])
  }

  ghost function ValueText(h: Heap, r: Ref, parents: set<TableId>, style: Style, indent: string): Result<string,
      EncodeError>
    requires Closed(h) && InHeap(h, r)
    decreases |h.Keys - parents|, 0
  {
    if !r.Table? then LeafText(r)
    else if r.id in parents then Failure(ChildOfItself)
    else
      OneMoreParent(h, parents, r.id);
      TableText(h, h[r.id], parents + {r.id}, style, indent)
  }

  ghost function TableText(h: Heap, t: Entries, parents: set<TableId>, style: Style,
      indent: string): Result<string, EncodeError>
    requires Closed(h) && AllInHeap(h, t)
    decreases |h.Keys - parents|, 3
  {
    match ShapeOf(t)
    case Broken(e) => Failure(e)
    case Empty => Success("[]")
    case Array(maximum) =>
      (match ItemTexts(h, t, 1, maximum, parents, style, indent)
       case Success(items) => Success(ArrayText(items, style))
       case Failure(e) => Failure(e))
    case Object(keys, entries) =>
      (ShapeInHeap(h, t);
       match MemberTexts(h, keys, entries, parents, style, indent)
       case Success(members) => Success(ObjectText(members, style, indent))
       case Failure(e) => Failure(e))
  }

  /** The items from index `i` to `maximum`; a hole is a nil. */
  ghost function ItemTexts(h: Heap, t: Entries, i: nat, maximum: nat, parents: set<TableId>, style: Style,
      indent: string)
    : Result<seq<string>, EncodeError>
    requires Closed(h) && AllInHeap(h, t)
    decreases |h.Keys - parents|, 2, maximum + 1 - i
  {
    if i > maximum then Success([])
    else match ValueText(h, Lookup(t, Num(i)), parents, style, indent)
      case Failure(e) => Failure(e)
      case Success(item) =>
        Prepend([item], ItemTexts(h, t, i + 1, maximum, parents, style, indent))
  }

  ghost function MemberTexts(h: Heap, keys: seq<Key>, entries: Entries, parents: set<TableId>, style: Style,
      indent: string)
    : Result<seq<string>, EncodeError>
    requires Closed(h) && AllInHeap(h, entries) && forall i :: 0 <= i < |keys| ==> keys[i].Str?
    decreases |h.Keys - parents|, 2, |keys|
  {
    if keys == [] then Success([])
    else match ValueText(h, Lookup(entries, keys[0]), parents, style, SubtableIndent(style, indent))
      case Failure(e) => Failure(e)
      case Success(value) =>
        Prepend([MemberText(keys[0].s, value, style, indent)],
                MemberTexts(h, keys[1..], entries, parents, style, indent))
  }

  lemma OneMoreParent(h: Heap, parents: set<TableId>, id: TableId)
    requires id in h && id !in parents
    ensures |h.Keys - (parents + {id})| < |h.Keys - parents|
  {
    assert h.Keys - parents == h.Keys - (parents + {id}) + {id};
  }

  lemma ShapeInHeap(h: Heap, t: Entries)
    requires AllInHeap(h, t) && ShapeOf(t).Object?
    ensures AllInHeap(h, ShapeOf(t).entries)
    ensures forall i :: 0 <= i < |ShapeOf(t).keys| ==> ShapeOf(t).keys[i].Str?
  {
    KeysByKind(t);
    hide Ordered, StringKeys, NumberKeys, AsStrings, Remapped, Decimal;
    RemappedInHeap(h, t, Ordered(NumberKeys(t)));
    AsStringsAt(Ordered(NumberKeys(t)));
  }

  lemma KeysByKind(t: Entries)
    ensures forall i :: 0 <= i < |Ordered(StringKeys(t))| ==> Ordered(StringKeys(t))[i].Str?
    ensures forall i :: 0 <= i < |Ordered(NumberKeys(t))| ==>
              Ordered(NumberKeys(t))[i].Num? && Ordered(NumberKeys(t))[i] in t
  {
    hide Ordered;
    OrderedMembers(StringKeys(t));
    OrderedMembers(NumberKeys(t));
    forall i | 0 <= i < |Ordered(StringKeys(t))| ensures Ordered(StringKeys(t))[i].Str? {
      assert Ordered(StringKeys(t))[i] in StringKeys(t);
    }
    forall i | 0 <= i < |Ordered(NumberKeys(t))|
      ensures Ordered(NumberKeys(t))[i].Num? && Ordered(NumberKeys(t))[i] in t
    {
      assert Ordered(NumberKeys(t))[i] in NumberKeys(t);
    }
  }

  lemma {:induction false} RemappedInHeap(h: Heap, t: Entries, numbers: seq<Key>)
    requires AllInHeap(h, t) && forall i :: 0 <= i < |numbers| ==> numbers[i] in t
    ensures AllInHeap(h, Remapped(t, numbers))
    decreases |numbers|
  {
    if numbers != [] {
      RemappedInHeap(h, t, numbers[..|numbers| - 1]);
    }
  }

  lemma {:induction false} AsStringsAt(numbers: seq<Key>)
    ensures forall i :: 0 <= i < |numbers| ==> AsStrings(numbers)[i] == AsString(numbers[i])
    decreases |numbers|
  {
    if numbers != [] {
      AsStringsAt(numbers[..|numbers| - 1]);
    }
  }

  // ---------- The encoder ----------

  /** What a loop that has collected `done` will return. */
  function Prepend(done: seq<string>, rest: Result<seq<string>, EncodeError>): Result<seq<string>, EncodeError> {
    match rest
    case Success(texts) => Success(done + texts)
    case Failure(e) => Failure(e)
  }

  lemma PrependLaws(done: seq<string>, text: string, rest: Result<seq<string>, EncodeError>)
    ensures Prepend([], rest) == rest && Prepend(done, Success([])) == Success(done)
    ensures Prepend(done + [text], rest) == Prepend(done, Prepend([text], rest))
  {
    if rest.Success? {
      assert [] + rest.value == rest.value;
      assert (done + [text]) + rest.value == done + ([text] + rest.value);
    }
    assert done + [] == done;
  }

  /** One round of the items loop. */
  lemma ItemsAdvance(done: seq<string>, h: Heap, t: Entries, i: nat, maximum: nat, parents: set<TableId>,
                     style: Style, indent: string)
    requires Closed(h) && AllInHeap(h, t)
    ensures InHeap(h, Lookup(t, Num(i)))
    ensures var whole := Prepend(done, ItemTexts(h, t, i, maximum, parents, style, indent));
            if i > maximum then whole == Success(done)
            else match ValueText(h, Lookup(t, Num(i)), parents, style, indent)
              case Failure(e) => whole == Failure(e)
              case Success(item) =>
                whole == Prepend(done + [item], ItemTexts(h, t, i + 1, maximum, parents, style, indent))
  {
    hide ValueText;
    PrependLaws(done, "", Success([]));
    if i <= maximum && ValueText(h, Lookup(t, Num(i)), parents, style, indent).Success? {
      PrependLaws(done, ValueText(h, Lookup(t, Num(i)), parents, style, indent).value,
                  ItemTexts(h, t, i + 1, maximum, parents, style, indent));
    }
  }

  /** One round of the members loop. */
  lemma MembersAdvance(done: seq<string>, h: Heap, keys: seq<Key>, i: nat, entries: Entries, parents: set<TableId>,
                       style: Style, indent: string)
    requires Closed(h) && AllInHeap(h, entries) && i <= |keys| && forall j :: 0 <= j < |keys| ==> keys[j].Str?
    ensures i < |keys| ==> InHeap(h, Lookup(entries, keys[i]))
    ensures var whole := Prepend(done, MemberTexts(h, keys[i..], entries, parents, style, indent));
            if i == |keys| then whole == Success(done)
            else match ValueText(h, Lookup(entries, keys[i]), parents, style, SubtableIndent(style, indent))
              case Failure(e) => whole == Failure(e)
              case Success(value) =>
                whole == Prepend(done + [MemberText(keys[i].s, value, style, indent)],
                                 MemberTexts(h, keys[i + 1..], entries, parents, style, indent))
  {
    hide ValueText, MemberText, SubtableIndent;
    PrependLaws(done, "", Success([]));
    if i < |keys| {
      assert keys[i..][0] == keys[i] && keys[i..][1..] == keys[i + 1..];
      var value := ValueText(h, Lookup(entries, keys[i]), parents, style, SubtableIndent(style, indent));
      if value.Success? {
        PrependLaws(done, MemberText(keys[i].s, value.value, style, indent),
                    MemberTexts(h, keys[i + 1..], entries, parents, style, indent));
      }
    }
  }

  class Encoder {
    const heap: Heap
    var parents: set<TableId>

    constructor (heap: Heap)
      ensures this.heap == heap && parents == {}
    {
      this.heap := heap;
      parents := {};
    }

    /** `encode_value`. A value that is encoded leaves the parents as they were; an error ends the
        whole encoding, which drops them. */
    method EncodeValue(r: Ref, style: Style, indent: string) returns (result: Result<string, EncodeError>)
      requires Closed(heap) && InHeap(heap, r)
      modifies this
      ensures result == ValueText(heap, r, old(parents), style, indent)
      ensures result.Success? ==> parents == old(parents)
      decreases |heap.Keys - parents|, 0
    {
      if !r.Table? {
        return LeafText(r);
      }
      if r.id in parents {
        return Failure(ChildOfItself);
      }
      OneMoreParent(heap, parents, r.id);
      parents := parents + {r.id};
      result := EncodeTable(heap[r.id], style, indent);
      if result.Success? {
        parents := parents - {r.id};
      }
    }

    method EncodeTable(t: Entries, style: Style, indent: string) returns (result: Result<string, EncodeError>)
      requires Closed(heap) && AllInHeap(heap, t)
      modifies this
      ensures result == TableText(heap, t, old(parents), style, indent)
      ensures result.Success? ==> parents == old(parents)
      decreases |heap.Keys - parents|, 3
    {
      hide Closed, AllInHeap, ItemTexts, MemberTexts, ArrayText, ObjectText;
      var shape := ObjectOrArray(t);
      match shape
      case Broken(e) => return Failure(e);
      case Empty => return Success("[]");
      case Array(maximum) =>
        var items := EncodeItems(t, maximum, style, indent);
        if items.Failure? {
          return Failure(items.error);
        }
        return Success(ArrayText(items.value, style));
      case Object(keys, entries) =>
        ShapeInHeap(heap, t);
        var members := EncodeMembers(keys, entries, style, indent);
        if members.Failure? {
          return Failure(members.error);
        }
        return Success(ObjectText(members.value, style, indent));
    }

    method EncodeItems(t: Entries, maximum: nat, style: Style, indent: string) returns (result: Result<seq<string>,
        EncodeError>)
      requires Closed(heap) && AllInHeap(heap, t)
      modifies this
      ensures result == ItemTexts(heap, t, 1, maximum, old(parents), style, indent)
      ensures result.Success? ==> parents == old(parents)
      decreases |heap.Keys - parents|, 2
    {
      hide Prepend, ValueText, ItemTexts, Closed, AllInHeap;
      var items: seq<string> := [];
      ghost var whole := ItemTexts(heap, t, 1, maximum, parents, style, indent);
      PrependLaws([], "", whole);
      var i := 1;
      while i <= maximum
        invariant 1 <= i && parents == old(parents)
        invariant whole == Prepend(items, ItemTexts(heap, t, i, maximum, parents, style, indent))
        decreases maximum + 1 - i
      {
        ItemsAdvance(items, heap, t, i, maximum, parents, style, indent);
        var item := EncodeValue(Lookup(t, Num(i)), style, indent);
        if item.Failure? {
          return Failure(item.error);
        }
        items := items + [item.value];
        i := i + 1;
      }
      ItemsAdvance(items, heap, t, i, maximum, parents, style, indent);
      return Success(items);
    }

    method EncodeMembers(keys: seq<Key>, entries: Entries, style: Style, indent: string)
      returns (result: Result<seq<string>, EncodeError>)
      requires Closed(heap) && AllInHeap(heap, entries) && forall i :: 0 <= i < |keys| ==> keys[i].Str?
      modifies this
      ensures result == MemberTexts(heap, keys, entries, old(parents), style, indent)
      ensures result.Success? ==> parents == old(parents)
      decreases |heap.Keys - parents|, 2
    {
      hide Prepend, MemberText, SubtableIndent, ValueText, MemberTexts, Closed, AllInHeap;
      var members: seq<string> := [];
      ghost var whole := MemberTexts(heap, keys, entries, parents, style, indent);
      assert keys[0..] == keys;
      PrependLaws([], "", whole);
      var i := 0;
      while i < |keys|
        invariant 0 <= i <= |keys| && parents == old(parents)
        invariant whole == Prepend(members, MemberTexts(heap, keys[i..], entries, parents, style, indent))
      {
        MembersAdvance(members, heap, keys, i, entries, parents, style, indent);
        var value := EncodeValue(Lookup(entries, keys[i]), style, SubtableIndent(style, indent));
        if value.Failure? {
          return Failure(value.error);
        }
        members := members + [MemberText(keys[i].s, value.value, style, indent)];
        i := i + 1;
      }
      MembersAdvance(members, heap, keys, i, entries, parents, style, indent);
      return Success(members);
    }
  }

  /** `encode` and `encode_pretty`. */
  method Encode(heap: Heap, r: Ref, style: Style) returns (result: Result<string, EncodeError>)
    requires Closed(heap) && InHeap(heap, r)
    ensures result == ValueText(heap, r, {}, style, "")
  {
    var encoder := new Encoder(heap);
    result := encoder.EncodeValue(r, style, "");
  }

  method EncodePretty(heap: Heap, r: Ref) returns (result: Result<string, EncodeError>)
    requires Closed(heap) && InHeap(heap, r)
    ensures result == ValueText(heap, r, {}, DEFAULT_PRETTY, "")
  {
    result := Encode(heap, r, DEFAULT_PRETTY);
  }
}
