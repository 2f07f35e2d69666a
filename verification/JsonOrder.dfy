/** The order in which an object's members are written, told without the order that sorts them. */
module JsonOrder {
  import opened Wrappers
  import opened JsonStrings
  import opened LuaValues
  import opened JsonTables
  import opened JsonEncoder

  /** Up to `n` the strings agree; there the first ends, or has the lower byte. */
  predicate DiffersAt(a: string, b: string, n: nat) {
    && n <= |a| && n < |b| && a[..n] == b[..n]
    && (n < |a| ==> a[n] < b[n])
  }

  /** `a` is a proper beginning of `b`, or has the lower byte where they first differ. */
  ghost predicate Before(a: string, b: string) { exists n: nat :: DiffersAt(a, b, n) }

  lemma {:induction false} LeqIsBefore(a: string, b: string)
    ensures StringLeq(a, b) <==> a == b || Before(a, b)
    decreases |a|
  {
    if a == "" {
      assert b != "" ==> DiffersAt(a, b, 0);
    } else if b != "" && a[0] == b[0] {
      LeqIsBefore(a[1..], b[1..]);
      assert a == [a[0]] + a[1..] && b == [b[0]] + b[1..];
      if n: nat :| DiffersAt(a[1..], b[1..], n) {
        assert a[..n + 1] == [a[0]] + a[1..][..n] && b[..n + 1] == [b[0]] + b[1..][..n];
        assert DiffersAt(a, b, n + 1);
      }
      if n: nat :| DiffersAt(a, b, n) {
        assert a[..n][1..] == a[1..][..n - 1] && b[..n][1..] == b[1..][..n - 1];
        assert DiffersAt(a[1..], b[1..], n - 1);
      }
    } else if b != "" {
      assert a[0] < b[0] ==> DiffersAt(a, b, 0);
      forall n: nat | DiffersAt(a, b, n) ensures n == 0 {
        if n > 0 {
          SameStart(a, b, n);
        }
      }
    }
  }

  lemma SameStart(a: string, b: string, n: nat)
    requires 0 < n <= |a| && n <= |b| && a[..n] == b[..n]
    ensures a[0] == b[0]
  {
    assert a[..n][0] == a[0] && b[..n][0] == b[0];
  }

  /** Where two strings go on differently, the lower byte decides, whatever is in front and behind. */
  lemma BeforeByByte(p: string, c: char, u: string, d: char, v: string)
    requires c < d
    ensures Before(p + [c] + u, p + [d] + v) && Before(p, p + [c] + u)
  {
    var a, b := p + [c] + u, p + [d] + v;
    assert a[..|p|] == p == b[..|p|];
    assert DiffersAt(a, b, |p|);
    assert DiffersAt(p, a, |p|);
  }

  // ---------- The keys of an object ----------

  predicate Ascending(ns: seq<int>) { forall i, j :: 0 <= i < j < |ns| ==> ns[i] < ns[j] }

  /** The keys as `object_or_array` answers them: `s` string keys of the table, and then `ns` as strings. */
  ghost predicate InOrder(t: Entries, keys: seq<Key>, s: nat, ns: seq<int>) {
    && |keys| == s + |ns|
    && (forall i :: 0 <= i < s ==> keys[i].Str? && keys[i] in t)
    && (forall i, j :: 0 <= i < j < s ==> Before(keys[i].s, keys[j].s))
    && (forall i :: 0 <= i < |ns| ==> Num(ns[i]) in t && keys[s + i] == Str(Decimal(ns[i])))
    && Ascending(ns)
    && (forall k :: k in t && k.Str? ==> k in keys[..s])
    && (forall k :: k in t && k.Num? ==> k.n in ns)
  }

  function NumbersOf(keys: seq<Key>): seq<int>
    requires forall i :: 0 <= i < |keys| ==> keys[i].Num?
  {
    seq(|keys|, i requires 0 <= i < |keys| => keys[i].n)
  }

  /** What sorting gives: a list without repetitions, in the order of keys. */
  ghost predicate Sorts(sorted: seq<Key>, keys: set<Key>) {
    && (forall k :: k in sorted <==> k in keys)
    && forall i, j :: 0 <= i < j < |sorted| ==> KeyLeq(sorted[i], sorted[j]) && sorted[i] != sorted[j]
  }

  lemma OrderedSorts(keys: set<Key>)
    ensures Sorts(Ordered(keys), keys)
  {
    var sorted := Ordered(keys);
    assert Sorted(sorted);
    hide Ordered, KeyLeq;
    SortsAll(sorted, keys);
  }

  lemma StringsSorted(sorted: seq<Key>, keys: set<Key>)
    requires Sorts(sorted, keys) && forall k :: k in keys ==> k.Str?
    ensures forall i :: 0 <= i < |sorted| ==> sorted[i].Str? && sorted[i] in keys
    ensures forall i, j :: 0 <= i < j < |sorted| ==> Before(sorted[i].s, sorted[j].s)
  {
    hide StringLeq, Before;
    assert forall i :: 0 <= i < |sorted| ==> sorted[i] in sorted;
    forall i, j | 0 <= i < j < |sorted| ensures Before(sorted[i].s, sorted[j].s) {
      LeqIsBefore(sorted[i].s, sorted[j].s);
    }
  }

  lemma NumbersSorted(sorted: seq<Key>, keys: set<Key>)
    requires Sorts(sorted, keys) && forall k :: k in keys ==> k.Num?
    ensures forall i :: 0 <= i < |sorted| ==> sorted[i].Num? && sorted[i] in keys
    ensures Ascending(NumbersOf(sorted)) && forall k :: k in keys ==> k.n in NumbersOf(sorted)
  {
    assert forall i :: 0 <= i < |sorted| ==> sorted[i] in sorted;
    forall k | k in keys ensures k.n in NumbersOf(sorted) {
      var i :| 0 <= i < |sorted| && sorted[i] == k;
      assert NumbersOf(sorted)[i] == k.n;
    }
  }

  /**
   The members of an object come in this order: first the table's string keys, each before those it is a
   proper beginning of and those that have a higher byte where they first differ from it; then its
   number keys as strings, in the order of their numbers; none left out.
   */
  lemma MembersInOrder(t: Entries)
    requires ShapeOf(t).Object?
    ensures exists s, ns :: InOrder(t, ShapeOf(t).keys, s, ns)
  {
    hide Ordered, Remapped, Decimal, Before, InOrder, Sorts;
    var strings, numbers := Ordered(StringKeys(t)), Ordered(NumberKeys(t));
    OrderedSorts(StringKeys(t));
    OrderedSorts(NumberKeys(t));
    assert ShapeOf(t).keys == strings + AsStrings(numbers);
    Arranged(t, strings, numbers);
  }

  lemma Arranged(t: Entries, strings: seq<Key>, numbers: seq<Key>)
    requires Sorts(strings, StringKeys(t)) && Sorts(numbers, NumberKeys(t))
    ensures exists s, ns :: InOrder(t, strings + AsStrings(numbers), s, ns)
  {
    StringsSorted(strings, StringKeys(t));
    NumbersSorted(numbers, NumberKeys(t));
    AsStringsAt(numbers);
    var keys, s, ns := strings + AsStrings(numbers), |strings|, NumbersOf(numbers);
    assert keys[..s] == strings;
    hide Decimal, Before, AsStrings, Ascending;
    assert InOrder(t, keys, s, ns);
  }

  // ---------- A whole text ----------

  function TwoKeys(a: string, b: string, m: int, n: int): Heap {
    map[0 := map[Str(a) := Int(m), Str(b) := Int(n)]]
  }

  lemma TwoInOrder(t: Entries, a: string, b: string)
    requires t.Keys == {Str(a), Str(b)} && Before(a, b) && a != b
    ensures ShapeOf(t) == Object([Str(a), Str(b)], t)
  {
    TwoStrings(t, a, b);
    TwoSorted(a, b);
    NoNumbers(t);
    hide Ordered, KeyLeq, Before, StringKeys, NumberKeys, Sorted;
    assert [Str(a), Str(b)] + AsStrings([]) == [Str(a), Str(b)];
  }

  lemma TwoStrings(t: Entries, a: string, b: string)
    requires t.Keys == {Str(a), Str(b)}
    ensures StringKeys(t) == {Str(a), Str(b)} && NumberKeys(t) == {}
    ensures !HasOtherKey(t) && !Conflicts(t)
  {
  }

  lemma TwoSorted(a: string, b: string)
    requires Before(a, b) && a != b
    ensures Ordered({Str(a), Str(b)}) == [Str(a), Str(b)]
  {
    LeqIsBefore(a, b);
    hide Before, StringLeq;
    assert multiset([Str(a), Str(b)]) == multiset({Str(a), Str(b)});
    OrderedIs([Str(a), Str(b)], {Str(a), Str(b)});
  }

  lemma NoNumbers(t: Entries)
    ensures Ordered({}) == []
  {
    OrderedIs([], {});
  }

  lemma OrderedIs(sorted: seq<Key>, keys: set<Key>)
    requires Sorted(sorted) && multiset(sorted) == multiset(keys)
    ensures Ordered(keys) == sorted
  {
    hide KeyLeq;
    SortingIsUnique(sorted, Ordered(keys));
  }

  lemma TwoMembersJoin(h: Heap, t: Entries, a: string, b: string, parents: set<TableId>, style: Style)
    requires Closed(h) && AllInHeap(h, t) && ShapeOf(t) == Object([Str(a), Str(b)], t)
    requires Lookup(t, Str(a)).Int? && Lookup(t, Str(b)).Int?
    ensures TableText(h, t, parents, style, "") ==
            Success(ObjectText([MemberText(a, Decimal(Lookup(t, Str(a)).n), style, ""),
                                MemberText(b, Decimal(Lookup(t, Str(b)).n), style, "")], style, ""))
  {
    hide ShapeOf, Decimal, MemberText, ObjectText, Lookup, SubtableIndent;
    var keys := [Str(a), Str(b)];
    var first := MemberText(a, Decimal(Lookup(t, Str(a)).n), style, "");
    var second := MemberText(b, Decimal(Lookup(t, Str(b)).n), style, "");
    assert keys[1..] == [Str(b)] && keys[1..][1..] == [];
    assert MemberTexts(h, keys[1..][1..], t, parents, style, "") == Success([]);
    assert MemberTexts(h, keys[1..], t, parents, style, "") == Success([second] + []);
    assert MemberTexts(h, keys, t, parents, style, "") == Success([first] + ([second] + []));
    assert [first] + ([second] + []) == [first, second];
  }

  lemma TwoMembersValue(a: string, b: string, m: int, n: int, style: Style)
    requires Before(a, b) && a != b
    ensures var h := TwoKeys(a, b, m, n);
            && Closed(h) && InHeap(h, Table(0))
            && ValueText(h, Table(0), {}, style, "") ==
               Success(ObjectText([MemberText(a, Decimal(m), style, ""), MemberText(b, Decimal(n), style, "")],
                                  style, ""))
  {
    var h := TwoKeys(a, b, m, n);
    var t := h[0];
    assert Closed(h) && AllInHeap(h, t);
    assert Lookup(t, Str(a)) == Int(m) && Lookup(t, Str(b)) == Int(n);
    hide ShapeOf, Decimal, Before, Closed, AllInHeap, MemberText, ObjectText, TableText, Lookup, JsonStringLiteral;
    TwoInOrder(t, a, b);
    TwoMembersJoin(h, t, a, b, {} + {0}, style);
  }

  /** What the texts look like: an object with two numbers, compact and pretty, the lower key first. */
  lemma TwoMembersText(a: string, b: string, m: int, n: int)
    requires Before(a, b) && a != b
    ensures var h := TwoKeys(a, b, m, n);
            && Closed(h) && InHeap(h, Table(0))
            && ValueText(h, Table(0), {}, Compact, "") ==
               Success("{" + (JsonStringLiteral(a) + ":" + Decimal(m) + "," + (JsonStringLiteral(b) + ":" + Decimal(n)))
                       + "}")
            && ValueText(h, Table(0), {}, DEFAULT_PRETTY, "") ==
               Success("{\n" + ("  " + JsonStringLiteral(a) + ": " + Decimal(m) + ",\n"
                                + ("  " + JsonStringLiteral(b) + ": " + Decimal(n))) + "\n" + "" + "}")
  {
    hide ValueText, ShapeOf, Decimal, JsonStringLiteral, Before, Closed;
    TwoMembersValue(a, b, m, n, Compact);
    TwoMembersValue(a, b, m, n, DEFAULT_PRETTY);
    assert "" + "  " == "  ";
    JoinTwo(MemberText(a, Decimal(m), Compact, ""), MemberText(b, Decimal(n), Compact, ""), ",");
    JoinTwo(MemberText(a, Decimal(m), DEFAULT_PRETTY, ""), MemberText(b, Decimal(n), DEFAULT_PRETTY, ""), ",\n");
  }

  lemma JoinTwo(x: string, y: string, separator: string)
    ensures Join([x, y], separator) == x + separator + y
  {
    assert [x, y][1..] == [y];
  }
}
