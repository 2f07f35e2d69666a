/**
 Lua values as term_gui/json.lua sees them. Tables live in a heap and may be shared or form cycles;
 `Value` is what a decoded text denotes, a tree without sharing. Integers are unbounded and are
 printed in decimal; other numbers are known only by the text they are read from.
 */
module LuaValues {
  import opened JsonStrings

  datatype Key = Str(s: string) | Num(n: int) | OtherKey(id: nat)

  type TableId = nat

  /** A Lua value: `Opaque` is one of a type that has no JSON form, such as a function. */
  datatype Ref = Nil | Bool(b: bool) | Int(n: int) | Text(s: string) | Table(id: TableId) | Opaque

  type Entries = map<Key, Ref>

  type Heap = map<TableId, Entries>

  /** A table holds no nil, and what it refers to exists. */
  ghost predicate Closed(h: Heap) {
    forall id, k :: id in h && k in h[id] ==> h[id][k] != Nil && InHeap(h, h[id][k])
  }

  predicate InHeap(h: Heap, r: Ref) {
    r.Table? ==> r.id in h
  }

  function Lookup(t: Entries, k: Key): Ref {
    if k in t then t[k] else Nil
  }

  /** A decoded value. `Float` keeps the text of a number with a fraction or an exponent. */
  datatype Value =
    | VNil
    | VBool(b: bool)
    | VInt(n: int)
    | VFloat(text: string)
    | VText(s: string)
    | VTable(entries: map<Key, Value>)

  /** `r` in heap `h` is structurally equal to the finite tree `v`. */
  ghost predicate Denotes(h: Heap, r: Ref, v: Value)
    decreases v
  {
    match r
    case Nil => v == VNil
    case Bool(b) => v == VBool(b)
    case Int(n) => v == VInt(n)
    case Text(s) => v == VText(s)
    case Opaque => false
    case Table(id) =>
      && v.VTable? && id in h && v.entries.Keys == h[id].Keys
      && forall k :: k in v.entries ==> Denotes(h, h[id][k], v.entries[k])
  }

  // ---------- Decimal numbers ----------

  predicate IsDigit(c: char) { '0' <= c <= '9' }

  predicate AllDigits(s: string) {
    forall k :: 0 <= k < |s| ==> IsDigit(s[k])
  }

  function Digits(n: nat): (s: string)
    ensures s != "" && AllDigits(s)
    ensures n > 0 ==> s[0] != '0'
    ensures n == 0 ==> s == "0"
  {
    if n < 10 then [HexDigit(n)] else Digits(n / 10) + [HexDigit(n % 10)]
  }

  /** `tostring` of an integer. */
  function Decimal(n: int): string {
    if n < 0 then "-" + Digits(-n) else Digits(n)
  }

  function NatOf(s: string): nat
    requires AllDigits(s)
  {
    if s == "" then 0 else NatOf(s[..|s| - 1]) * 10 + HexValue(s[|s| - 1])
  }

  /** `tonumber` of the text of a decimal integer. */
  function IntOf(s: string): int
    requires AllDigits(s) || (s != "" && s[0] == '-' && AllDigits(s[1..]))
  {
    if AllDigits(s) then NatOf(s) else 0 - NatOf(s[1..])
  }

  lemma {:induction false} NatOfDigits(n: nat)
    ensures NatOf(Digits(n)) == n
  {
    var s := Digits(n);
    if n < 10 {
      assert s[..0] == "";
    } else {
      assert s[..|s| - 1] == Digits(n / 10);
      NatOfDigits(n / 10);
    }
  }

  lemma IntOfDecimal(n: int)
    ensures var s := Decimal(n); AllDigits(s) || (s != "" && s[0] == '-' && AllDigits(s[1..]))
    ensures IntOf(Decimal(n)) == n
  {
    if n < 0 {
      NatOfDigits(-n);
      assert Decimal(n)[1..] == Digits(-n);
      assert !IsDigit(Decimal(n)[0]);
    } else {
      NatOfDigits(n);
    }
  }

  /** Distinct integers print differently. */
  lemma DecimalInjective(m: int, n: int)
    requires Decimal(m) == Decimal(n)
    ensures m == n
  {
    IntOfDecimal(m);
    IntOfDecimal(n);
  }
}
