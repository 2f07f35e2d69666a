/**
 Tables in term_gui/json.lua: `object_or_array` decides how a table is encoded. `ShapeOf` says what
 it decides; the method carries its loops, proved to decide just that whatever order `pairs`
 enumerates the table in.
 */
module JsonTables {
  import opened Wrappers
  import opened JsonStrings
  import opened LuaValues

  // ---------- The order of keys ----------

  /** Lua's `<=` on strings, byte by byte. */
  predicate StringLeq(a: string, b: string) {
    if a == "" then true
    else if b == "" then false
    else a[0] < b[0] || (a[0] == b[0] && StringLeq(a[1..], b[1..]))
  }

  predicate KeyLeq(a: Key, b: Key) {
    match (a, b)
    case (Num(m), Num(n)) => m <= n
    case (Num(_), _) => true
    case (_, Num(_)) => false
    case (Str(s), Str(t)) => StringLeq(s, t)
    case (Str(_), OtherKey(_)) => true
    case (OtherKey(_), Str(_)) => false
    case (OtherKey(i), OtherKey(j)) => i <= j
  }

  lemma {:induction false} StringLeqOrders(a: string, b: string, c: string)
    ensures StringLeq(a, b) || StringLeq(b, a)
    ensures StringLeq(a, b) && StringLeq(b, a) ==> a == b
    ensures StringLeq(a, b) && StringLeq(b, c) ==> StringLeq(a, c)
    decreases |a| + |b| + |c|
  {
    if a != "" && b != "" {
      StringLeqOrders(a[1..], b[1..], if c != "" then c[1..] else c);
      assert a == [a[0]] + a[1..] && b == [b[0]] + b[1..];
    }
  }

  lemma KeyLeqOrders(a: Key, b: Key, c: Key)
    ensures KeyLeq(a, b) || KeyLeq(b, a)
    ensures KeyLeq(a, b) && KeyLeq(b, a) ==> a == b
    ensures KeyLeq(a, b) && KeyLeq(b, c) ==> KeyLeq(a, c)
  {
    if a.Str? && b.Str? {
      StringLeqOrders(a.s, b.s, if c.Str? then c.s else "");
    }
  }

  ghost predicate Sorted(keys: seq<Key>) {
    forall i, j :: 0 <= i < j < |keys| ==> KeyLeq(keys[i], keys[j])
  }

  function Insert(k: Key, keys: seq<Key>): seq<Key> {
    if keys == [] || KeyLeq(k, keys[0]) then [k] + keys else [keys[0]] + Insert(k, keys[1..])
  }

  /** `table.sort`. That it is insertion sort does not matter: see `SortingIsUnique`. */
  function TableSort(keys: seq<Key>): seq<Key> {
    if keys == [] then [] else Insert(keys[0], TableSort(keys[1..]))
  }

  lemma {:induction false} InsertSorts(k: Key, keys: seq<Key>)
    requires Sorted(keys)
    ensures Sorted(Insert(k, keys)) && multiset(Insert(k, keys)) == multiset(keys) + multiset{k}
  {
    if keys == [] {
    } else if KeyLeq(k, keys[0]) {
      forall j | 0 <= j < |keys| ensures KeyLeq(k, keys[j]) {
        KeyLeqOrders(k, keys[0], keys[j]);
      }
      SortedCons(k, keys);
    } else {
      InsertSorts(k, keys[1..]);
      var rest := Insert(k, keys[1..]);
      assert keys == [keys[0]] + keys[1..];
      KeyLeqOrders(k, keys[0], keys[0]);
      forall j | 0 <= j < |rest| ensures KeyLeq(keys[0], rest[j]) {
        assert rest[j] in multiset(rest);
        assert rest[j] == k || rest[j] in keys[1..];
      }
      SortedCons(keys[0], rest);
    }
  }

  lemma SortedCons(k: Key, keys: seq<Key>)
    requires Sorted(keys) && forall j :: 0 <= j < |keys| ==> KeyLeq(k, keys[j])
    ensures Sorted([k] + keys)
  {
  }

  lemma {:induction false} TableSortSorts(keys: seq<Key>)
    ensures Sorted(TableSort(keys)) && multiset(TableSort(keys)) == multiset(keys)
  {
    if keys != [] {
      TableSortSorts(keys[1..]);
      InsertSorts(keys[0], TableSort(keys[1..]));
      assert keys == [keys[0]] + keys[1..];
    }
  }

  /** A list of keys has one sorted rearrangement only. */
  lemma {:induction false} SortingIsUnique(a: seq<Key>, b: seq<Key>)
    requires Sorted(a) && Sorted(b) && multiset(a) == multiset(b)
    ensures a == b
  {
    if a == [] {
      assert |multiset(b)| == 0;
    } else {
      hide KeyLeq;
      SameHead(a, b);
      assert a == [a[0]] + a[1..] && b == [b[0]] + b[1..];
      assert multiset(a[1..]) == multiset(a) - multiset{a[0]};
      SortingIsUnique(a[1..], b[1..]);
    }
  }

  lemma SameHead(a: seq<Key>, b: seq<Key>)
    requires Sorted(a) && Sorted(b) && multiset(a) == multiset(b) && a != []
    ensures b != [] && a[0] == b[0]
  {
    hide KeyLeq;
    assert a[0] in multiset(b);
    assert b[0] in multiset(a);
    var i :| 0 <= i < |a| && a[i] == b[0];
    var j :| 0 <= j < |b| && b[j] == a[0];
    KeyLeqOrders(a[0], b[0], a[0]);
  }

  // ---------- Object or array ----------

  datatype EncodeError = ChildOfItself | BadKey | KeyConflict | CannotConvert

  datatype Shape =
    | Broken(error: EncodeError)
    | Empty
    | Array(maximum: nat)
    | Object(keys: seq<Key>, entries: Entries)

  /** The keys of one kind, sorted. */
  ghost function Ordered(keys: set<Key>): (sorted: seq<Key>)
    ensures Sorted(sorted) && multiset(sorted) == multiset(keys)
  {
    var listed := Listed(keys);
    TableSortSorts(listed);
    TableSort(listed)
  }

  ghost function Listed(keys: set<Key>): (listed: seq<Key>)
    ensures multiset(listed) == multiset(keys)
  {
    if keys == {} then []
    else
      var k :| k in keys;
      [k] + Listed(keys - {k})
  }

  function StringKeys(t: Entries): set<Key> { set k | k in t && k.Str? }

  function NumberKeys(t: Entries): set<Key> { set k | k in t && k.Num? }

  predicate HasOtherKey(t: Entries) { exists k :: k in t && k.OtherKey? }

  predicate MustBeStrings(t: Entries) { exists k :: k in t && k.Num? && k.n <= 0 }

  function AsString(k: Key): Key {
    if k.Num? then Str(Decimal(k.n)) else k
  }

  /** A number and a string key print the same. */
  predicate Conflicts(t: Entries) { exists k :: k in t && k.Num? && AsString(k) in t }

  function AsStrings(keys: seq<Key>): (r: seq<Key>)
    ensures |r| == |keys|
  {
    if keys == [] then [] else AsStrings(keys[..|keys| - 1]) + [AsString(keys[|keys| - 1])]
  }

  /** The shallow copy of the table, with the number keys thrown in as strings. */
  function Remapped(t: Entries, numbers: seq<Key>): Entries
    requires forall i :: 0 <= i < |numbers| ==> numbers[i] in t
  {
    if numbers == [] then t
    else Remapped(t, numbers[..|numbers| - 1])[AsString(numbers[|numbers| - 1]) := t[numbers[|numbers| - 1]]]
  }

  ghost predicate IsMaximum(t: Entries, m: int) {
    Num(m) in t && forall k :: k in t && k.Num? ==> k.n <= m
  }

  lemma {:induction false} MaximumExists(t: Entries)
    requires NumberKeys(t) != {}
    ensures exists m :: IsMaximum(t, m)
  {
    var sorted := Ordered(NumberKeys(t));
    assert |multiset(NumberKeys(t))| > 0;
    var last := sorted[|sorted| - 1];
    assert last in multiset(sorted) && last == Num(last.n);
    forall k | k in t && k.Num? ensures k.n <= last.n {
      assert k in multiset(sorted);
      var i :| 0 <= i < |sorted| && sorted[i] == k;
    }
    assert IsMaximum(t, last.n);
  }

  lemma MaximumIsUnique(t: Entries, m: int, n: int)
    requires IsMaximum(t, m) && IsMaximum(t, n)
    ensures m == n
  {
    assert Num(m).n <= n && Num(n).n <= m;
  }

  lemma OrderedMembers(keys: set<Key>)
    ensures forall k :: k in Ordered(keys) <==> k in keys
  {
    assert forall k :: k in Ordered(keys) <==> k in multiset(Ordered(keys));
  }

  /** What a table is encoded as. It mentions no enumeration of the table. */
  ghost function ShapeOf(t: Entries): Shape {
    if HasOtherKey(t) then Broken(BadKey)
    else if StringKeys(t) == {} && !MustBeStrings(t) then
      if NumberKeys(t) == {} then Empty
      else
        MaximumExists(t);
        var m :| IsMaximum(t, m);
        Array(m)
    else if Conflicts(t) then Broken(KeyConflict)
    else
      assert forall i :: 0 <= i < |Ordered(NumberKeys(t))| ==>
          Ordered(NumberKeys(t))[i] in multiset(Ordered(NumberKeys(t)));
      Object(Ordered(StringKeys(t)) + AsStrings(Ordered(NumberKeys(t))), Remapped(t, Ordered(NumberKeys(t))))
  }

  /** What the first loop of `object_or_array` finds out. */
  datatype Keys = Keys(strings: seq<Key>, numbers: seq<Key>, mustBeStrings: bool, maximum: Option<int>)

  ghost predicate Describes(found: Keys, t: Entries, seen: set<Key>) {
    && (forall k :: k in seen ==> !k.OtherKey?)
    && multiset(found.strings) == multiset(StringKeys(t) * seen)
    && multiset(found.numbers) == multiset(NumberKeys(t) * seen)
    && (found.mustBeStrings <==> exists k :: k in seen && k.Num? && k.n <= 0)
    && (found.maximum.None? ==> forall k :: k in seen && k.Num? ==> k.n <= 0)
    && (found.maximum.Some? ==>
          && 0 < found.maximum.value && Num(found.maximum.value) in seen
          && forall k :: k in seen && k.Num? ==> k.n <= found.maximum.value)
  }

  function Note(found: Keys, k: Key): Keys
    requires !k.OtherKey?
  {
    match k
    case Str(_) => found.(strings := found.strings + [k])
    case Num(n) =>
      var noted := found.(numbers := found.numbers + [k]);
      if n <= 0 then noted.(mustBeStrings := true)
      else if found.maximum.None? || n > found.maximum.value then noted.(maximum := Some(n))
      else noted
  }

  lemma NoteDescribes(found: Keys, t: Entries, seen: set<Key>, k: Key)
    requires Describes(found, t, seen) && k in t && k !in seen && !k.OtherKey?
    ensures Describes(Note(found, k), t, seen + {k})
  {
    var noted, seen' := Note(found, k), seen + {k};
    assert multiset(noted.strings) == multiset(StringKeys(t) * seen') && multiset(noted.numbers) ==
        multiset(NumberKeys(t) * seen') by {
      NoteLists(found, t, seen, k);
    }
    hide StringKeys, NumberKeys;
  }

  lemma NoteLists(found: Keys, t: Entries, seen: set<Key>, k: Key)
    requires multiset(found.strings) == multiset(StringKeys(t) * seen)
    requires multiset(found.numbers) == multiset(NumberKeys(t) * seen)
    requires k in t && k !in seen && !k.OtherKey?
    ensures multiset(Note(found, k).strings) == multiset(StringKeys(t) * (seen + {k}))
    ensures multiset(Note(found, k).numbers) == multiset(NumberKeys(t) * (seen + {k}))
  {
    if k.Str? {
      assert StringKeys(t) * (seen + {k}) == StringKeys(t) * seen + {k};
      assert NumberKeys(t) * (seen + {k}) == NumberKeys(t) * seen;
    } else {
      assert NumberKeys(t) * (seen + {k}) == NumberKeys(t) * seen + {k};
      assert StringKeys(t) * (seen + {k}) == StringKeys(t) * seen;
    }
  }

  /** The first loop, over the keys in any order. */
  method ListKeys(t: Entries) returns (found: Option<Keys>)
    ensures found.None? <==> HasOtherKey(t)
    ensures found.Some? ==> Describes(found.value, t, t.Keys)
  {
    hide Describes, Note;
    var keys := Keys([], [], false, None);
    NothingSeen(t);
    ghost var seen: set<Key> := {};
    var rest := t.Keys;
    while rest != {}
      invariant seen + rest == t.Keys && seen !! rest
      invariant Describes(keys, t, seen)
      decreases rest
    {
      var key :| key in rest;
      if key.OtherKey? {
        return None;
      }
      NoteDescribes(keys, t, seen, key);
      keys, rest, seen := Note(keys, key), rest - {key}, seen + {key};
    }
    assert seen == t.Keys;
    AllSeen(keys, t);
    return Some(keys);
  }

  /** `object_or_array`: whatever order the keys come in, the result is the same. */
  method ObjectOrArray(t: Entries) returns (shape: Shape)
    ensures shape == ShapeOf(t)
  {
    hide Describes, Note, TableSort, Ordered;
    var listed := ListKeys(t);
    if listed.None? {
      return Broken(BadKey);
    }
    var found := listed.value;
    AllSeen(found, t);
    if found.strings == [] && !found.mustBeStrings {
      if found.numbers != [] {
        AllPositive(found, t);
        return Array(found.maximum.value);
      }
      return Empty;
    }
    SortsAll(found.strings, StringKeys(t));
    SortsAll(found.numbers, NumberKeys(t));
    shape := NumbersAsStrings(t, TableSort(found.strings), TableSort(found.numbers));
  }

  lemma NothingSeen(t: Entries)
    ensures Describes(Keys([], [], false, None), t, {})
  {
  }

  lemma AllSeen(found: Keys, t: Entries)
    requires Describes(found, t, t.Keys)
    ensures !HasOtherKey(t) && (found.mustBeStrings <==> MustBeStrings(t))
    ensures multiset(found.strings) == multiset(StringKeys(t)) && multiset(found.numbers) == multiset(NumberKeys(t))
    ensures found.strings == [] <==> StringKeys(t) == {}
    ensures found.numbers == [] <==> NumberKeys(t) == {}
  {
    assert StringKeys(t) * t.Keys == StringKeys(t) && NumberKeys(t) * t.Keys == NumberKeys(t);
    assert |multiset(found.strings)| == |found.strings| && |multiset(found.numbers)| == |found.numbers|;
  }

  lemma AllPositive(found: Keys, t: Entries)
    requires Describes(found, t, t.Keys) && !HasOtherKey(t)
    requires StringKeys(t) == {} && !MustBeStrings(t) && NumberKeys(t) != {}
    ensures found.maximum.Some? && ShapeOf(t) == Array(found.maximum.value)
  {
    var k :| k in NumberKeys(t);
    assert k in t && k.Num? && k.n > 0;
    var m := found.maximum.value;
    assert IsMaximum(t, m);
    forall n | IsMaximum(t, n) ensures n == m {
      MaximumIsUnique(t, m, n);
    }
  }

  lemma SortsAll(listed: seq<Key>, keys: set<Key>)
    requires multiset(listed) == multiset(keys)
    ensures TableSort(listed) == Ordered(keys)
    ensures forall k :: k in Ordered(keys) <==> k in keys
    ensures forall i :: 0 <= i < |Ordered(keys)| ==> Ordered(keys)[i] in keys
    ensures forall i, j :: 0 <= i < j < |Ordered(keys)| ==> Ordered(keys)[i] != Ordered(keys)[j]
  {
    TableSortSorts(listed);
    SortingIsUnique(TableSort(listed), Ordered(keys));
    OrderedMembers(keys);
    NoneTwice(Ordered(keys), keys);
  }

  lemma NoneTwice(listed: seq<Key>, keys: set<Key>)
    requires multiset(listed) == multiset(keys)
    ensures forall i, j :: 0 <= i < j < |listed| ==> listed[i] != listed[j]
  {
    forall i, j | 0 <= i < j < |listed| ensures listed[i] != listed[j] {
      assert listed == listed[..j] + [listed[j]] + listed[j + 1..];
      assert multiset(listed)[listed[j]] <= 1;
      assert listed[..j][i] == listed[i];
      assert listed[i] in multiset(listed[..j]);
    }
  }

  /** The last loop of `object_or_array`. */
  method NumbersAsStrings(t: Entries, stringKeys: seq<Key>, numberKeys: seq<Key>) returns (shape: Shape)
    requires forall i :: 0 <= i < |numberKeys| ==> numberKeys[i].Num? && numberKeys[i] in t
    requires forall k :: k in t && k.Num? ==> k in numberKeys
    requires forall i, j :: 0 <= i < j < |numberKeys| ==> numberKeys[i] != numberKeys[j]
    ensures shape == if Conflicts(t) then Broken(KeyConflict)
                     else Object(stringKeys + AsStrings(numberKeys), Remapped(t, numberKeys))
  {
    hide AsString;
    var keys, entries := stringKeys, t;
    for i := 0 to |numberKeys|
      invariant entries == Remapped(t, numberKeys[..i])
      invariant keys == stringKeys + AsStrings(numberKeys[..i])
      invariant forall j :: 0 <= j < i ==> AsString(numberKeys[j]) !in t
    {
      var stringKey := AsString(numberKeys[i]);
      NewKey(t, numberKeys, i);
      if stringKey in entries {
        assert numberKeys[i] in t;
        return Broken(KeyConflict);
      }
      assert numberKeys[..i + 1][..i] == numberKeys[..i];
      keys := keys + [stringKey];
      entries := entries[stringKey := t[numberKeys[i]]];
    }
    assert numberKeys[..|numberKeys|] == numberKeys;
    return Object(keys, entries);
  }

  lemma {:induction false} RemappedKeys(t: Entries, numbers: seq<Key>, k: Key)
    requires forall i :: 0 <= i < |numbers| ==> numbers[i] in t
    ensures k in Remapped(t, numbers) <==> k in t || exists j :: 0 <= j < |numbers| && AsString(numbers[j]) == k
    decreases |numbers|
  {
    if numbers != [] {
      RemappedKeys(t, numbers[..|numbers| - 1], k);
    }
  }

  /** A number printed as a string can only meet a string key of the table. */
  lemma NewKey(t: Entries, numberKeys: seq<Key>, i: nat)
    requires forall j :: 0 <= j < |numberKeys| ==> numberKeys[j].Num? && numberKeys[j] in t
    requires forall j, k :: 0 <= j < k < |numberKeys| ==> numberKeys[j] != numberKeys[k]
    requires i < |numberKeys|
    ensures AsString(numberKeys[i]) in Remapped(t, numberKeys[..i]) <==> AsString(numberKeys[i]) in t
  {
    RemappedKeys(t, numberKeys[..i], AsString(numberKeys[i]));
    if j :| 0 <= j < i && AsString(numberKeys[..i][j]) == AsString(numberKeys[i]) {
      DecimalInjective(numberKeys[j].n, numberKeys[i].n);
    }
  }
}
