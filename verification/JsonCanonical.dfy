/** The text is a function of the value alone, and the value a function of the text. */
module JsonCanonical {
  import opened Wrappers
  import opened JsonStrings
  import opened LuaValues
  import opened JsonTables
  import opened JsonEncoder
  import opened JsonDecoder
  import opened JsonCycles
  import opened JsonLayout
  import opened JsonRoundTrip

  lemma SameKeysSameShape(t: Entries, u: Entries)
    requires t.Keys == u.Keys
    ensures ShapeOf(t).Empty? <==> ShapeOf(u).Empty?
    ensures ShapeOf(t).Array? <==> ShapeOf(u).Array?
    ensures ShapeOf(t).Array? ==> ShapeOf(t).maximum == ShapeOf(u).maximum
    ensures ShapeOf(t).Object? <==> ShapeOf(u).Object?
    ensures ShapeOf(t).Object? ==> ShapeOf(t).keys == ShapeOf(u).keys
  {
    hide Ordered, Remapped, AsStrings;
    assert forall k :: k in t <==> k in u;
    assert StringKeys(t) == StringKeys(u) && NumberKeys(t) == NumberKeys(u);
    if ShapeOf(t).Array? {
      ArrayKeys(t, ShapeOf(t).maximum);
      ArrayKeys(u, ShapeOf(u).maximum);
      assert IsMaximum(t, ShapeOf(u).maximum);
      MaximumIsUnique(t, ShapeOf(t).maximum, ShapeOf(u).maximum);
    }
  }

  lemma SameLeaf(g: Heap, q: Ref, h: Heap, r: Ref, v: Value)
    requires Denotes(g, q, v) && Denotes(h, r, v) && !q.Table?
    ensures q == r
  {
  }

  lemma {:induction false} SameText(g: Heap, q: Ref, parents: set<TableId>, h: Heap, r: Ref, parents': set<TableId>,
                                    v: Value, style: Style, indent: string)
    requires Closed(g) && InHeap(g, q) && Denotes(g, q, v) && ValueText(g, q, parents, style, indent).Success?
    requires Closed(h) && InHeap(h, r) && Denotes(h, r, v) && ValueText(h, r, parents', style, indent).Success?
    requires PlainValue(v)
    ensures ValueText(g, q, parents, style, indent) == ValueText(h, r, parents', style, indent)
    decreases v, 1
  {
    hide ShapeOf, ItemTexts, MemberTexts, ArrayText, ObjectText, Plain;
    if !q.Table? {
      SameLeaf(g, q, h, r, v);
    } else {
      var t, u := g[q.id], h[r.id];
      SameKeysSameShape(t, u);
      PlainTable(g, q.id, v);
      PlainTable(h, r.id, v);
      match ShapeOf(t)
      case Empty =>
      case Array(maximum) =>
        SameItems(g, q.id, parents + {q.id}, h, r.id, parents' + {r.id}, v, 1, maximum, style, indent);
      case Object(keys, _) =>
        PlainObject(t);
        PlainObject(u);
        SameMembers(g, q.id, parents + {q.id}, h, r.id, parents' + {r.id}, v, keys, style, indent);
    }
  }

  lemma {:induction false} SameItems(g: Heap, q: TableId, parents: set<TableId>, h: Heap, r: TableId,
      parents': set<TableId>,
                                     v: Value, k: nat, maximum: nat, style: Style, indent: string)
    requires Fits(g, q, v) && q in g && AllInHeap(g, g[q])
    requires Fits(h, r, v) && r in h && AllInHeap(h, h[r])
    requires ItemTexts(g, g[q], k, maximum, parents, style, indent).Success?
    requires ItemTexts(h, h[r], k, maximum, parents', style, indent).Success?
    ensures ItemTexts(g, g[q], k, maximum, parents, style, indent) == ItemTexts(h, h[r], k, maximum, parents',
        style, indent)
    decreases v, 0, maximum + 1 - k
  {
    hide ValueText;
    if k <= maximum {
      ItemsUnfold(g, g[q], k, maximum, parents, style, indent);
      ItemsUnfold(h, h[r], k, maximum, parents', style, indent);
      EntryFits(g, q, v, Num(k));
      EntryFits(h, r, v, Num(k));
      if Num(k) in v.entries {
        SameText(g, g[q][Num(k)], parents, h, h[r][Num(k)], parents', v.entries[Num(k)], style, indent);
      } else {
        NilNeverFails(g, parents, style, indent);
        assert ValueText(g, Nil, parents, style, indent) == ValueText(h, Nil, parents', style, indent) by {
          SameNil(g, parents, h, parents', style, indent);
        }
      }
      SameItems(g, q, parents, h, r, parents', v, k + 1, maximum, style, indent);
    }
  }

  lemma SameNil(g: Heap, parents: set<TableId>, h: Heap, parents': set<TableId>, style: Style, indent: string)
    requires Closed(g) && Closed(h)
    ensures ValueText(g, Nil, parents, style, indent) == ValueText(h, Nil, parents', style, indent)
  {
  }

  lemma {:induction false} SameMembers(g: Heap, q: TableId, parents: set<TableId>, h: Heap, r: TableId,
      parents': set<TableId>,
                                       v: Value, keys: seq<Key>, style: Style, indent: string)
    requires Fits(g, q, v) && q in g && AllInHeap(g, g[q])
    requires Fits(h, r, v) && r in h && AllInHeap(h, h[r])
    requires forall j :: 0 <= j < |keys| ==> keys[j].Str? && keys[j] in g[q]
    requires MemberTexts(g, keys, g[q], parents, style, indent).Success?
    requires MemberTexts(h, keys, h[r], parents', style, indent).Success?
    ensures MemberTexts(g, keys, g[q], parents, style, indent) == MemberTexts(h, keys, h[r], parents', style, indent)
    decreases v, 0, |keys|
  {
    hide ValueText, MemberText, SubtableIndent;
    if keys != [] {
      MembersUnfold(g, keys, g[q], parents, style, indent);
      MembersUnfold(h, keys, h[r], parents', style, indent);
      EntryFits(g, q, v, keys[0]);
      EntryFits(h, r, v, keys[0]);
      SameText(g, g[q][keys[0]], parents, h, h[r][keys[0]], parents', v.entries[keys[0]], style,
          SubtableIndent(style, indent));
      SameMembers(g, q, parents, h, r, parents', v, keys[1..], style, indent);
    }
  }

  /** Two values, in whatever heaps and however shared, have the same text exactly when they are
      structurally equal. */
  lemma SameTextIffSameValue(g: Heap, q: Ref, w: Value, h: Heap, r: Ref, v: Value, style: Style)
    requires IsTree(g, q, w) && IsTree(h, r, v) && BlankStyle(style)
    ensures ValueText(g, q, {}, style, "") == ValueText(h, r, {}, style, "") <==> w == v
  {
    hide ValueText, Decode;
    RoundTrip(g, q, w, style);
    RoundTrip(h, r, v, style);
    assert ComesBack(g, q, style, w) && ComesBack(h, r, style, v);
    if w == v {
      SameText(g, q, {}, h, r, {}, v, style, "");
    }
  }
}
