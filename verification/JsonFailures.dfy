/** What the errors of the encoder mean: each is the flaw of a table that a walk along references comes to. */
module JsonFailures {
  import opened Wrappers
  import opened LuaValues
  import opened JsonTables
  import opened JsonEncoder
  import opened JsonCycles

  // ---------- Shapes, told from the keys ----------

  /** A number key prints like a string key of the table. */
  ghost predicate Clashes(t: Entries) { exists n :: Num(n) in t && Str(Decimal(n)) in t }

  /** What a table is encoded as: with a key that is neither string nor number, as nothing; without keys,
      as an empty list; with positive numbers only, as a list up to the greatest; and else as an object,
      unless a number key clashes with a string key. */
  lemma ShapeIff(t: Entries)
    ensures ShapeOf(t) == Broken(BadKey) <==> exists k :: k in t && k.OtherKey?
    ensures ShapeOf(t).Empty? <==> t == map[]
    ensures ShapeOf(t).Array? <==> t != map[] && forall k :: k in t ==> k.Num? && k.n > 0
    ensures ShapeOf(t).Array? ==> Num(ShapeOf(t).maximum) in t && forall k :: k in t ==> k.n <= ShapeOf(t).maximum
    ensures ShapeOf(t) == Broken(KeyConflict) <==>
            && (forall k :: k in t ==> !k.OtherKey?) && (exists k :: k in t && (k.Str? || k.n <= 0)) && Clashes(t)
    ensures ShapeOf(t).Broken? ==> ShapeOf(t).error == BadKey || ShapeOf(t).error == KeyConflict
  {
    KindsOfKeys(t);
    ConflictsIff(t);
    if ShapeOf(t).Array? {
      ArrayKeys(t, ShapeOf(t).maximum);
    }
    hide Ordered, Remapped, Decimal, Clashes, Conflicts;
  }

  lemma KindsOfKeys(t: Entries)
    ensures StringKeys(t) == {} <==> forall k :: k in t ==> !k.Str?
    ensures NumberKeys(t) == {} <==> forall k :: k in t ==> !k.Num?
    ensures t == map[] <==> forall k :: k !in t
  {
    assert forall k :: k in t && k.Str? ==> k in StringKeys(t);
    assert forall k :: k in t && k.Num? ==> k in NumberKeys(t);
    assert forall k :: k in StringKeys(t) ==> k in t;
    assert forall k :: k in NumberKeys(t) ==> k in t;
  }

  lemma ConflictsIff(t: Entries)
    ensures Conflicts(t) <==> Clashes(t)
  {
    if Conflicts(t) {
      var k :| k in t && k.Num? && AsString(k) in t;
      assert Num(k.n) in t && Str(Decimal(k.n)) in t;
    }
    if Clashes(t) {
      var n :| Num(n) in t && Str(Decimal(n)) in t;
      assert AsString(Num(n)) in t;
    }
  }

  // ---------- Errors, told from walks ----------

  /** The last table of the walk, or the walk itself, gives rise to the error. */
  ghost predicate Causes(h: Heap, path: seq<TableId>, parents: set<TableId>, e: EncodeError)
    requires path != [] && forall i :: 0 <= i < |path| ==> path[i] in h
  {
    var t := h[path[|path| - 1]];
    match e
    case ChildOfItself => Repeats(path, parents)
    case BadKey => exists k :: k in t && k.OtherKey?
    case KeyConflict => Clashes(t)
    case CannotConvert => Refers(t, Opaque)
  }

  ghost predicate Caused(h: Heap, r: Ref, parents: set<TableId>, e: EncodeError) {
    match r
    case Table(id) => exists path :: Walk(h, id, path) && Causes(h, path, parents, e)
    case Opaque => e == CannotConvert
    case _ => false
  }

  ghost predicate FailsWith(h: Heap, r: Ref, parents: set<TableId>, style: Style, indent: string, e: EncodeError) {
    Closed(h) && InHeap(h, r) && ValueText(h, r, parents, style, indent) == Failure(e)
  }

  lemma {:induction false} ItemsFailWith(h: Heap, t: Entries, i: nat, maximum: nat, parents: set<TableId>,
                                         style: Style, indent: string)
    requires Closed(h) && AllInHeap(h, t) && ItemTexts(h, t, i, maximum, parents, style, indent).Failure?
    ensures exists j :: i <= j <= maximum
                        && FailsWith(h, Lookup(t, Num(j)), parents, style, indent,
                                     ItemTexts(h, t, i, maximum, parents, style, indent).error)
    decreases maximum + 1 - i
  {
    hide ValueText;
    if ValueText(h, Lookup(t, Num(i)), parents, style, indent).Success? {
      ItemsFailWith(h, t, i + 1, maximum, parents, style, indent);
    } else {
      assert FailsWith(h, Lookup(t, Num(i)), parents, style, indent,
                       ItemTexts(h, t, i, maximum, parents, style, indent).error);
    }
  }

  lemma {:induction false} MembersFailWith(h: Heap, keys: seq<Key>, entries: Entries, parents: set<TableId>,
                                           style: Style, indent: string)
    requires Closed(h) && AllInHeap(h, entries) && forall i :: 0 <= i < |keys| ==> keys[i].Str?
    requires MemberTexts(h, keys, entries, parents, style, indent).Failure?
    ensures exists k :: k in keys
                        && FailsWith(h, Lookup(entries, k), parents, style, SubtableIndent(style, indent),
                                     MemberTexts(h, keys, entries, parents, style, indent).error)
    decreases |keys|
  {
    hide ValueText, SubtableIndent, MemberText;
    var inner := SubtableIndent(style, indent);
    if ValueText(h, Lookup(entries, keys[0]), parents, style, inner).Success? {
      MembersFailWith(h, keys[1..], entries, parents, style, indent);
      var k :| k in keys[1..]
               && FailsWith(h, Lookup(entries, k), parents, style, inner,
                            MemberTexts(h, keys[1..], entries, parents, style, indent).error);
      assert k in keys;
    } else {
      assert FailsWith(h, Lookup(entries, keys[0]), parents, style, inner,
                       MemberTexts(h, keys, entries, parents, style, indent).error);
    }
  }

  /** A table fails with an error of its own shape, or with one of its values. */
  lemma TableFailsWith(h: Heap, t: Entries, parents: set<TableId>, style: Style, indent: string, e: EncodeError)
    requires Closed(h) && AllInHeap(h, t) && TableText(h, t, parents, style, indent) == Failure(e)
    ensures ShapeOf(t) == Broken(e) || exists r, inner :: Refers(t, r) && FailsWith(h, r, parents, style, inner, e)
  {
    hide ValueText, ShapeOf, SubtableIndent, Lookup;
    match ShapeOf(t)
    case Broken(_) =>
    case Empty =>
    case Array(maximum) =>
      ItemsFailWith(h, t, 1, maximum, parents, style, indent);
      var j :| 1 <= j <= maximum && FailsWith(h, Lookup(t, Num(j)), parents, style, indent, e);
      ItemRefers(h, t, j, parents, style, indent, e);
    case Object(keys, entries) =>
      ShapeInHeap(h, t);
      ObjectHoldsValues(t);
      MembersFailWith(h, keys, entries, parents, style, indent);
      var inner := SubtableIndent(style, indent);
      var k :| k in keys && FailsWith(h, Lookup(entries, k), parents, style, inner, e);
      assert Lookup(entries, k) == entries[k] by { hide *; LookupThere(entries, k); }
  }

  lemma LookupThere(entries: Entries, k: Key)
    requires k in entries
    ensures Lookup(entries, k) == entries[k]
  {
  }

  lemma ItemRefers(h: Heap, t: Entries, j: nat, parents: set<TableId>, style: Style, indent: string, e: EncodeError)
    requires FailsWith(h, Lookup(t, Num(j)), parents, style, indent, e)
    ensures Refers(t, Lookup(t, Num(j)))
  {
    NilNeverFails(h, parents, style, indent);
    hide ValueText;
    assert Num(j) in t;
  }

  lemma LongerCauses(h: Heap, id: TableId, next: TableId, path: seq<TableId>, parents: set<TableId>, e: EncodeError)
    requires id in h && Refers(h[id], Table(next)) && Walk(h, next, path) && Causes(h, path, parents + {id}, e)
    ensures Walk(h, id, [id] + path) && Causes(h, [id] + path, parents, e)
  {
    hide Clashes, Refers;
    var longer := [id] + path;
    assert forall i :: 0 < i < |longer| ==> longer[i] == path[i - 1];
    assert longer[|longer| - 1] == path[|path| - 1];
    if i :| 0 <= i < |path| && path[i] in parents + {id} {
      assert longer[i + 1] == path[i];
      assert path[i] == id ==> longer[0] == longer[i + 1];
    }
    if i, j :| 0 <= i < j < |path| && path[i] == path[j] {
      assert longer[i + 1] == longer[j + 1];
    }
  }

  lemma {:induction false} FailureIsCaused(h: Heap, r: Ref, parents: set<TableId>, style: Style, indent: string,
                                           e: EncodeError)
    requires Closed(h) && InHeap(h, r) && ValueText(h, r, parents, style, indent) == Failure(e)
    ensures Caused(h, r, parents, e)
    decreases |h.Keys - parents|
  {
    hide TableText, ShapeOf, Clashes, Refers, Repeats;
    if r.Table? {
      var path := [r.id];
      assert Walk(h, r.id, path);
      if r.id in parents {
        assert Repeats(path, parents) by { hide *; ParentRepeats(r.id, parents); }
        assert Causes(h, path, parents, e);
      } else {
        OneMoreParent(h, parents, r.id);
        TableFailsWith(h, h[r.id], parents + {r.id}, style, indent, e);
        ShapeIff(h[r.id]);
        if ShapeOf(h[r.id]) == Broken(e) {
          assert Causes(h, path, parents, e);
        } else {
          var r', inner :| Refers(h[r.id], r') && FailsWith(h, r', parents + {r.id}, style, inner, e);
          FailureIsCaused(h, r', parents + {r.id}, style, inner, e);
          CausedThrough(h, r.id, r', parents, e);
        }
      }
    }
  }

  lemma ParentRepeats(id: TableId, parents: set<TableId>)
    requires id in parents
    ensures Repeats([id], parents)
  {
    assert [id][0] in parents;
  }

  lemma CausedThrough(h: Heap, id: TableId, r: Ref, parents: set<TableId>, e: EncodeError)
    requires id in h && Refers(h[id], r) && Caused(h, r, parents + {id}, e)
    ensures Caused(h, Table(id), parents, e)
  {
    hide Refers;
    match r
    case Table(next) =>
      var path :| Walk(h, next, path) && Causes(h, path, parents + {id}, e);
      LongerCauses(h, id, next, path, parents, e);
    case Opaque =>
      assert Walk(h, id, [id]) && Causes(h, [id], parents, e);
    case _ =>
  }

  /** When encoding fails, a walk from the value explains the error: it comes back to one of its tables, or to a
      table with a key that is neither string nor number, or with a number key that clashes with a string
      key, or with a value that has no JSON form. */
  lemma ErrorMeans(h: Heap, r: Ref, style: Style, e: EncodeError)
    requires Closed(h) && InHeap(h, r) && ValueText(h, r, {}, style, "") == Failure(e)
    ensures Caused(h, r, {}, e)
  {
    FailureIsCaused(h, r, {}, style, "", e);
  }
}
