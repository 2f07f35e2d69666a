/** Facts about sequences that several models need. */
module Sequences {
  function DropLast<T>(s: seq<T>): seq<T>
    requires s != []
  {
    s[..|s| - 1]
  }

  function LastOf<T>(s: seq<T>): T
    requires s != []
  {
    s[|s| - 1]
  }

  function Remove<T>(s: seq<T>, i: nat): seq<T>
    requires i < |s|
  {
    s[..i] + s[i + 1..]
  }

  lemma Regroup<T>(a: seq<T>, b: seq<T>, x: seq<T>, c: seq<T>)
    ensures (a + (b + x)) + c == (a + b) + (x + c)
  {
  }

  lemma Assoc<T>(a: seq<T>, b: seq<T>, c: seq<T>)
    ensures (a + b) + c == a + (b + c)
  {
  }

  lemma Associate<T>(a: seq<T>, x: seq<T>, b: seq<T>, c: seq<T>)
    ensures (a + x) + b + c == a + (x + b) + c
  {
  }

  function FlatMap<T, U>(s: seq<T>, f: T -> seq<U>): seq<U> {
    if s == [] then [] else f(s[0]) + FlatMap(s[1..], f)
  }

  lemma {:induction false} FlatMapConcat<T, U>(a: seq<T>, b: seq<T>, f: T -> seq<U>)
    ensures FlatMap(a + b, f) == FlatMap(a, f) + FlatMap(b, f)
  {
    if a == [] {
      assert a + b == b;
    } else {
      assert (a + b)[1..] == a[1..] + b;
      FlatMapConcat(a[1..], b, f);
    }
  }

  lemma FlatMapAppend<T, U>(s: seq<T>, x: T, f: T -> seq<U>)
    ensures FlatMap(s + [x], f) == FlatMap(s, f) + f(x)
  {
    FlatMapConcat(s, [x], f);
    assert [x][1..] == [];
    assert FlatMap([x], f) == f(x) + [];
  }

  lemma FlatMapIgnore<T, U>(s: seq<T>, x: T, f: T -> seq<U>)
    requires f(x) == []
    ensures FlatMap(s + [x], f) == FlatMap(s, f)
  {
    FlatMapAppend(s, x, f);
  }

  /** The first element contributes nothing. */
  lemma FlatMapSkip<T, U>(s: seq<T>, f: T -> seq<U>)
    requires s != [] && f(s[0]) == []
    ensures FlatMap(s[1..], f) == FlatMap(s, f)
  {
  }

  lemma FlatMapAround<T, U>(a: seq<T>, x: T, b: seq<T>, f: T -> seq<U>)
    ensures FlatMap(a + [x] + b, f) == FlatMap(a, f) + f(x) + FlatMap(b, f)
  {
    FlatMapConcat(a + [x], b, f);
    FlatMapAppend(a, x, f);
  }

  lemma Around<T>(s: seq<T>, i: nat)
    requires i < |s|
    ensures s[..i] + [s[i]] + s[i + 1..] == s
  {
  }

  lemma FlatMapSplit<T, U>(s: seq<T>, i: nat, f: T -> seq<U>)
    requires i < |s|
    ensures FlatMap(s, f) == FlatMap(s[..i], f) + f(s[i]) + FlatMap(s[i + 1..], f)
    ensures FlatMap(Remove(s, i), f) == FlatMap(s[..i], f) + FlatMap(s[i + 1..], f)
  {
    hide FlatMap;
    FlatMapAround(s[..i], s[i], s[i + 1..], f);
    Around(s, i);
    FlatMapConcat(s[..i], s[i + 1..], f);
  }

  /** Removing an element that contributes nothing changes nothing. */
  lemma FlatMapRemoveNone<T, U>(s: seq<T>, i: nat, f: T -> seq<U>)
    requires i < |s| && f(s[i]) == []
    ensures FlatMap(Remove(s, i), f) == FlatMap(s, f)
  {
    FlatMapSplit(s, i, f);
  }

  /** Removing the only contribution leaves none. */
  lemma FlatMapRemoveOnly<T, U>(s: seq<T>, i: nat, f: T -> seq<U>)
    requires i < |s| && |f(s[i])| == 1 && |FlatMap(s, f)| <= 1
    ensures FlatMap(s, f) == f(s[i]) && FlatMap(Remove(s, i), f) == []
  {
    FlatMapSplit(s, i, f);
    assert |FlatMap(s[..i], f)| == 0 && |FlatMap(s[i + 1..], f)| == 0;
  }

  /** Removing a contribution that no earlier element precedes takes the first one. */
  lemma FlatMapRemoveFirst<T, U>(s: seq<T>, i: nat, f: T -> seq<U>)
    requires i < |s| && forall j :: 0 <= j < i ==> f(s[j]) == []
    ensures FlatMap(s, f) == f(s[i]) + FlatMap(Remove(s, i), f)
  {
    FlatMapSplit(s, i, f);
    FlatMapNone(s[..i], f);
    assert [] + f(s[i]) == f(s[i]);
    assert [] + FlatMap(s[i + 1..], f) == FlatMap(s[i + 1..], f);
  }

  lemma {:induction false} FlatMapNone<T, U>(s: seq<T>, f: T -> seq<U>)
    requires forall j :: 0 <= j < |s| ==> f(s[j]) == []
    ensures FlatMap(s, f) == []
  {
    if s != [] {
      FlatMapNone(s[1..], f);
    }
  }

  /** Every contribution is an element of the whole. */
  lemma FlatMapContains<T, U>(s: seq<T>, i: nat, f: T -> seq<U>, u: U)
    requires i < |s| && u in f(s[i])
    ensures u in FlatMap(s, f)
  {
    FlatMapSplit(s, i, f);
  }

  lemma {:induction false} FlatMapEmpty<T, U>(s: seq<T>, f: T -> seq<U>)
    requires FlatMap(s, f) == []
    ensures forall j :: 0 <= j < |s| ==> f(s[j]) == []
  {
    if s != [] {
      assert |f(s[0])| + |FlatMap(s[1..], f)| == 0;
      FlatMapEmpty(s[1..], f);
    }
  }
}
