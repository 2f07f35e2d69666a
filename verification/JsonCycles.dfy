/**
 When encoding fails. The verdict is tied to the table graph alone: walks along table references, no
 parents and no text.
 */
module JsonCycles {
  import opened Wrappers
  import opened LuaValues
  import opened JsonTables
  import opened JsonEncoder

  // ---------- The graph ----------

  ghost predicate Refers(t: Entries, r: Ref) { exists k :: k in t && t[k] == r }

  /** `path` starts at `id` and follows references from table to table. */
  ghost predicate Walk(h: Heap, id: TableId, path: seq<TableId>) {
    && path != [] && path[0] == id
    && (forall i :: 0 <= i < |path| ==> path[i] in h)
    && (forall i :: 0 < i < |path| ==> Refers(h[path[i - 1]], Table(path[i])))
  }

  /** The table cannot be encoded for what it is itself: a key of another type, a number key that
      prints like a string key, or a value without a JSON form. */
  ghost predicate Flawed(t: Entries) { ShapeOf(t).Broken? || Refers(t, Opaque) }

  ghost predicate Repeats(path: seq<TableId>, parents: set<TableId>) {
    || (exists i :: 0 <= i < |path| && path[i] in parents)
    || (exists i, j :: 0 <= i < j < |path| && path[i] == path[j])
  }

  /** The walk runs into itself, into a parent, or into a flawed table. */
  ghost predicate Stuck(h: Heap, path: seq<TableId>, parents: set<TableId>)
    requires path != [] && forall i :: 0 <= i < |path| ==> path[i] in h
  {
    Repeats(path, parents) || Flawed(h[path[|path| - 1]])
  }

  ghost predicate CannotEncode(h: Heap, r: Ref, parents: set<TableId>) {
    match r
    case Table(id) => exists path :: Walk(h, id, path) && Stuck(h, path, parents)
    case Opaque => true
    case _ => false
  }

  // ---------- A table fails with one of its values ----------

  lemma {:induction false} ItemsFailIff(h: Heap, t: Entries, i: nat, maximum: nat, parents: set<TableId>,
      style: Style, indent: string)
    requires Closed(h) && AllInHeap(h, t)
    ensures ItemTexts(h, t, i, maximum, parents, style, indent).Failure? <==>
            exists j :: i <= j <= maximum && ItemFails(h, t, j, parents, style, indent)
    decreases maximum + 1 - i
  {
    hide ValueText;
    if i <= maximum {
      ItemsFailIff(h, t, i + 1, maximum, parents, style, indent);
      assert ItemFails(h, t, i, parents, style, indent) <==>
             ValueText(h, Lookup(t, Num(i)), parents, style, indent).Failure?;
    }
  }

  ghost predicate ItemFails(h: Heap, t: Entries, j: nat, parents: set<TableId>, style: Style, indent: string)
    requires Closed(h) && AllInHeap(h, t)
  {
    ValueText(h, Lookup(t, Num(j)), parents, style, indent).Failure?
  }

  lemma {:induction false} MembersFailIff(h: Heap, keys: seq<Key>, entries: Entries, parents: set<TableId>,
      style: Style, indent: string)
    requires Closed(h) && AllInHeap(h, entries) && forall i :: 0 <= i < |keys| ==> keys[i].Str?
    ensures MemberTexts(h, keys, entries, parents, style, indent).Failure? <==>
            exists k :: k in keys && ValueText(h, Lookup(entries, k), parents, style, SubtableIndent(style,
                indent)).Failure?
    decreases |keys|
  {
    hide ValueText, Lookup, SubtableIndent, MemberText;
    if keys != [] {
      MembersFailIff(h, keys[1..], entries, parents, style, indent);
      assert keys == [keys[0]] + keys[1..];
      assert forall k :: k in keys <==> k == keys[0] || k in keys[1..];
    }
  }

  /** The values an object's members are written from are the values of the table. */
  lemma ObjectHoldsValues(t: Entries)
    requires ShapeOf(t).Object?
    ensures forall k :: k in ShapeOf(t).keys ==> k in ShapeOf(t).entries && Refers(t, ShapeOf(t).entries[k])
    ensures forall r :: Refers(t, r) ==> Member(ShapeOf(t).keys, ShapeOf(t).entries, r)
  {
    var strings, numbers := Ordered(StringKeys(t)), Ordered(NumberKeys(t));
    SortedKeys(t);
    RemappedValues(t);
    hide Remapped, AsStrings, AsString, Ordered, StringKeys, NumberKeys, Member;
    var printed, entries := AsStrings(numbers), Remapped(t, numbers);
    assert ShapeOf(t).keys == strings + printed && ShapeOf(t).entries == entries;
    MembersRefer(t, strings, numbers, printed, entries);
    ReferencesAreMembers(t, strings, numbers, printed, entries);
  }

  lemma RemappedValues(t: Entries)
    requires ShapeOf(t).Object?
    ensures var numbers := Ordered(NumberKeys(t));
            && (forall i :: 0 <= i < |numbers| ==> numbers[i] in t)
            && (forall k :: k in t ==> k in Remapped(t, numbers) && Remapped(t, numbers)[k] == t[k])
            && (forall i :: 0 <= i < |numbers| ==>
                  AsStrings(numbers)[i] in Remapped(t, numbers)
                  && Remapped(t, numbers)[AsStrings(numbers)[i]] == t[numbers[i]])
  {
    hide ShapeOf;
    var numbers := Ordered(NumberKeys(t));
    SortedKeys(t);
    NoneTwice(numbers, NumberKeys(t));
    hide Ordered, StringKeys, NumberKeys, AsString, Decimal;
    RemappedEntries(t, numbers);
    AsStringsAt(numbers);
  }

  /** Some listed key of the entries leads to `r`. */
  ghost predicate Member(keys: seq<Key>, entries: Entries, r: Ref) {
    exists k :: k in keys && k in entries && entries[k] == r
  }

  lemma MembersRefer(t: Entries, strings: seq<Key>, numbers: seq<Key>, printed: seq<Key>, entries: Entries)
    requires |printed| == |numbers|
    requires forall k :: k in strings ==> k in t && k in entries && entries[k] == t[k]
    requires forall i :: 0 <= i < |numbers| ==>
               printed[i] in entries && numbers[i] in t && entries[printed[i]] == t[numbers[i]]
    ensures forall k :: k in strings + printed ==> k in entries && Refers(t, entries[k])
  {
  }

  lemma ReferencesAreMembers(t: Entries, strings: seq<Key>, numbers: seq<Key>, printed: seq<Key>, entries: Entries)
    requires |printed| == |numbers|
    requires forall k :: k in t ==> k in strings || k in numbers
    requires forall k :: k in t ==> k in entries && entries[k] == t[k]
    requires forall i :: 0 <= i < |numbers| ==>
               printed[i] in entries && numbers[i] in t && entries[printed[i]] == t[numbers[i]]
    ensures forall r :: Refers(t, r) ==> Member(strings + printed, entries, r)
  {
    forall r | Refers(t, r) ensures Member(strings + printed, entries, r) {
      var k :| k in t && t[k] == r;
      if k in strings {
        assert k in strings + printed;
      } else {
        var i :| 0 <= i < |numbers| && numbers[i] == k;
        assert printed[i] in strings + printed;
      }
    }
  }

  lemma SortedKeys(t: Entries)
    requires ShapeOf(t).Object?
    ensures forall k :: k in t <==> k in Ordered(StringKeys(t)) || k in Ordered(NumberKeys(t))
    ensures multiset(Ordered(NumberKeys(t))) == multiset(NumberKeys(t))
    ensures forall i :: 0 <= i < |Ordered(NumberKeys(t))| ==>
              var k := Ordered(NumberKeys(t))[i]; k.Num? && k in t && AsString(k) !in t
  {
    OrderedMembers(StringKeys(t));
    OrderedMembers(NumberKeys(t));
    forall i | 0 <= i < |Ordered(NumberKeys(t))|
      ensures var k := Ordered(NumberKeys(t))[i]; k.Num? && k in t && AsString(k) !in t
    {
      assert Ordered(NumberKeys(t))[i] in NumberKeys(t);
    }
  }

  lemma {:induction false} RemappedEntries(t: Entries, numbers: seq<Key>)
    requires forall i :: 0 <= i < |numbers| ==> numbers[i].Num? && numbers[i] in t && AsString(numbers[i]) !in t
    requires forall i, j :: 0 <= i < j < |numbers| ==> numbers[i] != numbers[j]
    ensures forall k :: k in t ==> k in Remapped(t, numbers) && Remapped(t, numbers)[k] == t[k]
    ensures forall i :: 0 <= i < |numbers| ==>
              AsString(numbers[i]) in Remapped(t, numbers) && Remapped(t, numbers)[AsString(numbers[i])] ==
                  t[numbers[i]]
    decreases |numbers|
  {
    if numbers != [] {
      hide AsString;
      var front, last := numbers[..|numbers| - 1], numbers[|numbers| - 1];
      RemappedEntries(t, front);
      forall i | 0 <= i < |front|
        ensures AsString(numbers[i]) != AsString(last) && AsString(numbers[i]) in Remapped(t, front)
        ensures Remapped(t, front)[AsString(numbers[i])] == t[numbers[i]]
      {
        assert front[i] == numbers[i];
        AsStringInjective(numbers[i], last);
      }
    }
  }

  lemma AsStringInjective(a: Key, b: Key)
    requires a.Num? && b.Num? && a != b
    ensures AsString(a) != AsString(b)
  {
    if AsString(a) == AsString(b) {
      DecimalInjective(a.n, b.n);
    }
  }

  // ---------- The verdict ----------

  ghost predicate ValueFails(h: Heap, r: Ref, parents: set<TableId>, style: Style, indent: string) {
    Closed(h) && InHeap(h, r) && ValueText(h, r, parents, style, indent).Failure?
  }

  /** The indent the values of a table are written with. */
  ghost function InnerIndent(t: Entries, style: Style, indent: string): string {
    if ShapeOf(t).Object? then SubtableIndent(style, indent) else indent
  }

  lemma TableFailsIff(h: Heap, t: Entries, parents: set<TableId>, style: Style, indent: string)
    requires Closed(h) && AllInHeap(h, t)
    ensures TableText(h, t, parents, style, indent).Failure? <==>
            ShapeOf(t).Broken? || exists r :: Refers(t, r) && ValueFails(h, r, parents, style, InnerIndent(t,
                style, indent))
  {
    hide ValueText, ShapeOf, SubtableIndent;
    match ShapeOf(t)
    case Broken(_) =>
    case Empty => EmptyRefersNothing(t);
    case Array(maximum) =>
      ItemsFailIff(h, t, 1, maximum, parents, style, indent);
      ArrayItemFailsIff(h, t, maximum, parents, style, indent);
    case Object(keys, entries) =>
      ShapeInHeap(h, t);
      ObjectHoldsValues(t);
      MembersFailIff(h, keys, entries, parents, style, indent);
  }

  lemma EmptyRefersNothing(t: Entries)
    requires ShapeOf(t).Empty?
    ensures forall r :: !Refers(t, r)
  {
    assert forall k :: k in t ==> k in StringKeys(t) + NumberKeys(t);
  }

  lemma ArrayItemFailsIff(h: Heap, t: Entries, maximum: nat, parents: set<TableId>, style: Style, indent: string)
    requires Closed(h) && AllInHeap(h, t) && ShapeOf(t) == Array(maximum)
    ensures (exists j :: 1 <= j <= maximum && ItemFails(h, t, j, parents, style, indent)) <==>
            exists r :: Refers(t, r) && ValueFails(h, r, parents, style, indent)
  {
    ArrayKeys(t, maximum);
    NilNeverFails(h, parents, style, indent);
    hide ValueText, ShapeOf;
    if r :| Refers(t, r) && ValueFails(h, r, parents, style, indent) {
      var k :| k in t && t[k] == r;
      assert ItemFails(h, t, k.n, parents, style, indent);
    }
    if j :| 1 <= j <= maximum && ItemFails(h, t, j, parents, style, indent) {
      assert Refers(t, t[Num(j)]) && ValueFails(h, t[Num(j)], parents, style, indent);
    }
  }

  lemma NilNeverFails(h: Heap, parents: set<TableId>, style: Style, indent: string)
    requires Closed(h)
    ensures ValueText(h, Nil, parents, style, indent).Success?
  {
  }

  lemma ArrayKeys(t: Entries, maximum: nat)
    requires ShapeOf(t) == Array(maximum)
    ensures forall k :: k in t ==> k.Num? && 1 <= k.n <= maximum
    ensures IsMaximum(t, maximum)
  {
    MaximumExists(t);
    forall k | k in t ensures k.Num? && k.n > 0 {
      assert k !in StringKeys(t);
    }
  }

  // ---------- The graph side ----------

  /** A walk gets stuck at the table itself or behind one of its references. */
  lemma StuckUnfolds(h: Heap, id: TableId, parents: set<TableId>)
    requires id in h && id !in parents
    ensures CannotEncode(h, Table(id), parents) <==>
            ShapeOf(h[id]).Broken? || exists r :: Refers(h[id], r) && CannotEncode(h, r, parents + {id})
  {
    hide ShapeOf;
    if path :| Walk(h, id, path) && Stuck(h, path, parents) {
      if |path| == 1 {
        assert path == [id];
        assert Refers(h[id], Opaque) ==> CannotEncode(h, Opaque, parents + {id});
      } else {
        assert Refers(h[id], Table(path[1]));
        TailStuck(h, id, path, parents);
      }
    }
    if ShapeOf(h[id]).Broken? || Refers(h[id], Opaque) {
      assert Walk(h, id, [id]) && Stuck(h, [id], parents);
    }
    forall r | Refers(h[id], r) && CannotEncode(h, r, parents + {id}) && r.Table?
      ensures CannotEncode(h, Table(id), parents)
    {
      var path :| Walk(h, r.id, path) && Stuck(h, path, parents + {id});
      LongerStuck(h, id, r.id, path, parents);
    }
  }

  lemma TailStuck(h: Heap, id: TableId, path: seq<TableId>, parents: set<TableId>)
    requires Walk(h, id, path) && Stuck(h, path, parents) && |path| > 1 && id !in parents
    ensures Walk(h, path[1], path[1..]) && Stuck(h, path[1..], parents + {id})
  {
    hide Flawed;
    var tail := path[1..];
    assert forall i :: 0 < i < |tail| ==> tail[i - 1] == path[i];
    if i :| 0 <= i < |path| && path[i] in parents {
      assert tail[i - 1] in parents + {id};
    }
    if i, j :| 0 <= i < j < |path| && path[i] == path[j] {
      if i == 0 {
        assert tail[j - 1] in parents + {id};
      } else {
        assert tail[i - 1] == tail[j - 1];
      }
    }
  }

  lemma LongerStuck(h: Heap, id: TableId, next: TableId, path: seq<TableId>, parents: set<TableId>)
    requires id in h && Refers(h[id], Table(next)) && Walk(h, next, path) && Stuck(h, path, parents + {id})
    ensures Walk(h, id, [id] + path) && Stuck(h, [id] + path, parents)
  {
    hide Flawed;
    var longer := [id] + path;
    assert forall i :: 0 < i < |longer| ==> longer[i] == path[i - 1];
    if i :| 0 <= i < |path| && path[i] in parents + {id} {
      assert longer[i + 1] == path[i];
      assert path[i] == id ==> longer[0] == longer[i + 1];
    }
    if i, j :| 0 <= i < j < |path| && path[i] == path[j] {
      assert longer[i + 1] == longer[j + 1];
    }
  }

  lemma {:induction false} FailsIffStuck(h: Heap, r: Ref, parents: set<TableId>, style: Style, indent: string)
    requires Closed(h) && InHeap(h, r)
    ensures ValueText(h, r, parents, style, indent).Failure? <==> CannotEncode(h, r, parents)
    decreases |h.Keys - parents|
  {
    hide TableText, Stuck;
    if r.Table? {
      if r.id in parents {
        ParentStuck(h, r.id, parents);
      } else {
        var t := h[r.id];
        OneMoreParent(h, parents, r.id);
        forall r' | Refers(t, r')
          ensures ValueFails(h, r', parents + {r.id}, style, InnerIndent(t, style, indent)) <==> CannotEncode(h,
              r', parents + {r.id})
        {
          FailsIffStuck(h, r', parents + {r.id}, style, InnerIndent(t, style, indent));
        }
        TableFailsIff(h, t, parents + {r.id}, style, indent);
        StuckUnfolds(h, r.id, parents);
      }
    }
  }

  lemma ParentStuck(h: Heap, id: TableId, parents: set<TableId>)
    requires id in h && id in parents
    ensures CannotEncode(h, Table(id), parents)
  {
    assert Walk(h, id, [id]) && Stuck(h, [id], parents) by {
      assert [id][0] in parents;
    }
  }

  /**
   The verdict of `encode` and `encode_pretty` on any finite table graph: it terminates, and it fails
   if and only if some walk from the value comes back to a table it has been through, or comes to a
   table that cannot be encoded for what it is. A table met twice on different walks is no obstacle.
   */
  lemma EncodeFailsIff(h: Heap, r: Ref, style: Style)
    requires Closed(h) && InHeap(h, r)
    ensures ValueText(h, r, {}, style, "").Failure? <==>
            || r == Opaque
            || (r.Table? && exists path :: Walk(h, r.id, path) && (Cyclic(path) || Flawed(h[path[|path| - 1]])))
  {
    FailsIffStuck(h, r, {}, style, "");
    hide Flawed, Walk;
    assert r.Table? ==> forall path :: Walk(h, r.id, path) ==>
      (Stuck(h, path, {}) <==> Cyclic(path) || Flawed(h[path[|path| - 1]]));
  }

  ghost predicate Cyclic(path: seq<TableId>) {
    exists i, j :: 0 <= i < j < |path| && path[i] == path[j]
  }

  /** No table that can be reached is flawed: the tables have string keys only or positive integer
      keys only, and values with a JSON form. */
  ghost predicate Plain(t: Entries) {
    && ((forall k :: k in t ==> k.Str?) || (forall k :: k in t ==> k.Num? && k.n > 0))
    && !Refers(t, Opaque)
  }

  /** On such graphs it is the cycles alone: encoding fails if and only if a cycle can be reached. */
  lemma PlainFailsIffCyclic(h: Heap, r: Ref, style: Style)
    requires Closed(h) && InHeap(h, r) && r != Opaque
    requires r.Table? ==> forall path :: Walk(h, r.id, path) ==> Plain(h[path[|path| - 1]])
    ensures ValueText(h, r, {}, style, "").Failure? <==>
            r.Table? && exists path :: Walk(h, r.id, path) && Cyclic(path)
  {
    EncodeFailsIff(h, r, style);
    if r.Table? {
      forall path | Walk(h, r.id, path) ensures !Flawed(h[path[|path| - 1]]) {
        PlainIsNotFlawed(h[path[|path| - 1]]);
      }
    }
  }

  lemma PlainIsNotFlawed(t: Entries)
    requires Plain(t)
    ensures !Flawed(t)
  {
  }
}
