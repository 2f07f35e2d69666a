/**
 JSON texts as section 2 to 7 of RFC 8259 write them, with blanks wherever they may stand, and what a text
 means. Nothing here refers to how a text is decoded. A few texts beyond the RFC are included because
 `decode` reads them: raw control characters in strings and a backslash before any character.
 */
module JsonGrammar {
  import opened JsonStrings
  import opened LuaValues

  datatype Numeral = Numeral(minus: bool, integer: string, fraction: string, exponent: string)

  /** A piece of a string: a character, a backslash and a character, escapes of a scalar value, or the
      escape of a surrogate without its partner. */
  datatype Part = Raw(c: char) | Short(c: char) | Code(escape: string, scalar: Scalar) | Alone(escape: string, n: nat)

  /** A text together with its structure. The strings `gap`, `before` and `after` are blanks. */
  datatype Json =
    | JNull
    | JTrue
    | JFalse
    | JNumber(numeral: Numeral)
    | JString(parts: seq<Part>)
    | JNoItems(gap: string)
    | JItems(items: Items)
    | JNoMembers(gap: string)
    | JMembers(members: Members)

  datatype Items =
    | LastItem(before: string, item: Json, after: string)
    | Item(before: string, item: Json, after: string, rest: Items)

  datatype Members =
    | LastMember(before: string, key: seq<Part>, beforeColon: string, afterColon: string, value: Json, after: string)
    | Member(before: string, key: seq<Part>, beforeColon: string, afterColon: string, value: Json, after: string,
             rest: Members)

  // ---------- Texts ----------

  function Sign(minus: bool): string { if minus then "-" else "" }

  function NumeralText(n: Numeral): string { Sign(n.minus) + n.integer + n.fraction + n.exponent }

  function PartText(p: Part): string {
    match p
    case Raw(c) => [c]
    case Short(c) => ['\\', c]
    case Code(escape, _) => escape
    case Alone(escape, _) => escape
  }

  function PartsText(parts: seq<Part>): string {
    if parts == [] then "" else PartText(parts[0]) + PartsText(parts[1..])
  }

  function StringText(parts: seq<Part>): string { "\"" + (PartsText(parts) + "\"") }

  function JText(j: Json): string {
    match j
    case JNull => "null"
    case JTrue => "true"
    case JFalse => "false"
    case JNumber(n) => NumeralText(n)
    case JString(parts) => StringText(parts)
    case JNoItems(gap) => "[" + (gap + "]")
    case JItems(items) => "[" + (items.before + ItemsText(items))
    case JNoMembers(gap) => "{" + (gap + "}")
    case JMembers(members) => "{" + (members.before + MembersText(members))
  }

  /** The items without the blanks in front of the first. */
  function ItemsText(items: Items): string {
    JText(items.item) + (items.after +
      match items
      case LastItem(_, _, _) => "]"
      case Item(_, _, _, rest) => "," + (rest.before + ItemsText(rest)))
  }

  function PairText(m: Members): string
    decreases m, 0
  {
    StringText(m.key) + (m.beforeColon + (":" + (m.afterColon + JText(m.value))))
  }

  function MembersText(m: Members): string
    decreases m, 1
  {
    PairText(m) + (m.after +
      match m
      case LastMember(_, _, _, _, _, _) => "}"
      case Member(_, _, _, _, _, _, rest) => "," + (rest.before + MembersText(rest)))
  }

  // ---------- Which texts ----------

  predicate Blank(s: string) {
    forall k :: 0 <= k < |s| ==> s[k] == ' ' || s[k] == '\n' || s[k] == '\r' || s[k] == '\t'
  }

  predicate IsInteger(s: string) { s == "0" || (s != "" && AllDigits(s) && s[0] != '0') }

  predicate IsFraction(s: string) { s == "" || (|s| >= 2 && s[0] == '.' && AllDigits(s[1..])) }

  predicate IsExponent(s: string) {
    || s == ""
    || (|s| >= 2 && (s[0] == 'e' || s[0] == 'E')
        && (AllDigits(s[1..]) || (|s| >= 3 && (s[1] == '+' || s[1] == '-') && AllDigits(s[2..]))))
  }

  predicate IsNumeral(n: Numeral) { IsInteger(n.integer) && IsFraction(n.fraction) && IsExponent(n.exponent) }

  /** Four hexadecimal digits come first. */
  predicate FourHex(s: string) { |s| >= 4 && IsHex(s[0]) && IsHex(s[1]) && IsHex(s[2]) && IsHex(s[3]) }

  /** The escape of a low surrogate comes first. */
  predicate LowFirst(s: string) { |s| >= 6 && exists n :: HexEscape(s[..6], n) && 0xDC00 <= n <= 0xDFFF }

  /** `after` is what stands behind the piece. */
  predicate PartOk(p: Part, after: string) {
    match p
    case Raw(c) => c != '"' && c != '\\'
    case Short(c) => c == 'u' ==> !FourHex(after)
    case Code(escape, scalar) => EscapeOf(escape, scalar)
    case Alone(escape, n) => HexEscape(escape, n) && Surrogate(n) && (n <= 0xDBFF ==> !LowFirst(after))
  }

  predicate PartsOk(parts: seq<Part>) {
    parts != [] ==> PartOk(parts[0], PartsText(parts[1..]) + "\"") && PartsOk(parts[1..])
  }

  predicate JsonOk(j: Json) {
    match j
    case JNull | JTrue | JFalse => true
    case JNumber(n) => IsNumeral(n)
    case JString(parts) => PartsOk(parts)
    case JNoItems(gap) => Blank(gap)
    case JItems(items) => ItemsOk(items)
    case JNoMembers(gap) => Blank(gap)
    case JMembers(members) => MembersOk(members)
  }

  predicate ItemsOk(items: Items) {
    Blank(items.before) && JsonOk(items.item) && Blank(items.after) && (items.Item? ==> ItemsOk(items.rest))
  }

  predicate MembersOk(m: Members) {
    && Blank(m.before) && PartsOk(m.key) && Blank(m.beforeColon) && Blank(m.afterColon) && JsonOk(m.value)
    && Blank(m.after) && (m.Member? ==> MembersOk(m.rest))
  }

  // ---------- Meanings ----------

  function PowerOfTen(n: nat): nat { if n == 0 then 1 else 10 * PowerOfTen(n - 1) }

  /** The number that digits denote by their places. */
  function Places(digits: string): nat
    requires AllDigits(digits)
  {
    if digits == "" then 0
    else (digits[0] as int - '0' as int) * PowerOfTen(|digits| - 1) + Places(digits[1..])
  }

  /** A numeral with neither fraction nor exponent is an integer; of another one the text is kept. */
  function NumeralMeaning(n: Numeral): Value
    requires IsNumeral(n)
  {
    if n.fraction == "" && n.exponent == "" then VInt(if n.minus then 0 - Places(n.integer) else Places(n.integer))
    else VFloat(NumeralText(n))
  }

  function ShortMeaning(c: char): char {
    match c
    case 'b' => '\U{8}'
    case 'f' => '\U{c}'
    case 'n' => '\n'
    case 'r' => '\r'
    case 't' => '\t'
    case _ => c
  }

  function PartMeaning(p: Part): string {
    match p
    case Raw(c) => [c]
    case Short(c) => [ShortMeaning(c)]
    case Code(_, scalar) => UnicodeCodepointAsUtf8(scalar)
    case Alone(_, _) => "?"
  }

  function StringMeaning(parts: seq<Part>): string {
    if parts == [] then "" else PartMeaning(parts[0]) + StringMeaning(parts[1..])
  }

  function Meaning(j: Json): Value
    requires JsonOk(j)
  {
    match j
    case JNull => VNil
    case JTrue => VBool(true)
    case JFalse => VBool(false)
    case JNumber(n) => NumeralMeaning(n)
    case JString(parts) => VText(StringMeaning(parts))
    case JNoItems(_) => VTable(map[])
    case JItems(items) =>
      VTable(map k | k in Indices(items) && ItemMeaning(items, k.n) != VNil :: ItemMeaning(items, k.n))
    case JNoMembers(_) => VTable(map[])
    case JMembers(members) =>
      VTable(map k | k in Names(members) && MemberMeaning(members, k.s) != VNil :: MemberMeaning(members, k.s))
  }

  function Count(items: Items): nat { if items.Item? then 1 + Count(items.rest) else 1 }

  function Indices(items: Items): set<Key> { set i | 1 <= i <= Count(items) :: Num(i) }

  function Names(m: Members): set<Key> { set k | k in KeysOf(m) :: Key.Str(k) }

  /** What item `i` means, counted from one; null is nil. */
  function ItemMeaning(items: Items, i: nat): Value
    requires ItemsOk(items) && 1 <= i <= Count(items)
  {
    if i == 1 then Meaning(items.item) else ItemMeaning(items.rest, i - 1)
  }

  function KeysOf(m: Members): set<string> {
    {StringMeaning(m.key)} + if m.Member? then KeysOf(m.rest) else {}
  }

  /** What the last member with the key means. */
  function MemberMeaning(m: Members, k: string): Value
    requires MembersOk(m) && k in KeysOf(m)
  {
    if m.Member? && k in KeysOf(m.rest) then MemberMeaning(m.rest, k) else Meaning(m.value)
  }

  // ---------- The texts of the RFC ----------

  predicate RfcPart(p: Part) {
    match p
    case Raw(c) => c as int >= 0x20
    case Short(c) => c == '"' || c == '\\' || c == '/' || c == 'b' || c == 'f' || c == 'n' || c == 'r' || c == 't'
    case _ => true
  }

  predicate RfcParts(parts: seq<Part>) { forall k :: 0 <= k < |parts| ==> RfcPart(parts[k]) }

  /** No control characters stand in strings, and only the characters of section 7 behind a backslash. */
  predicate Rfc(j: Json) {
    match j
    case JString(parts) => RfcParts(parts)
    case JItems(items) => RfcItems(items)
    case JMembers(members) => RfcMembers(members)
    case _ => true
  }

  predicate RfcItems(items: Items) { Rfc(items.item) && (items.Item? ==> RfcItems(items.rest)) }

  predicate RfcMembers(m: Members) {
    RfcParts(m.key) && Rfc(m.value) && (m.Member? ==> RfcMembers(m.rest))
  }
}
