/**
 The decoder of term_gui/json.lua with its default options. The `...At` and `...From` functions say
 what is read at a position; the methods are the loops of the source, proved to compute them.
 */
module JsonDecoder {
  import opened Wrappers
  import opened JsonStrings
  import opened LuaValues

  // ---------- Patterns ----------

  predicate IsWhitespace(c: char) { c == ' ' || c == '\n' || c == '\r' || c == '\t' }

  /** A member of Lua's class `%s`. */
  predicate IsSpace(c: char) { IsWhitespace(c) || c == '\U{b}' || c == '\U{c}' }

  predicate CharIs(text: string, i: nat, c: char) { i < |text| && text[i] == c }

  function SkipWhitespace(text: string, i: nat): (j: nat)
    ensures i <= j && (i <= |text| ==> j <= |text|)
    ensures j < |text| ==> !IsWhitespace(text[j])
    decreases |text| - i
  {
    if i < |text| && IsWhitespace(text[i]) then SkipWhitespace(text, i + 1) else i
  }

  function SkipSpace(text: string, i: nat): nat
    decreases |text| - i
  {
    if i < |text| && IsSpace(text[i]) then SkipSpace(text, i + 1) else i
  }

  function SkipDigits(text: string, i: nat): (j: nat)
    requires i <= |text|
    ensures i <= j <= |text| && AllDigits(text[i..j])
    decreases |text| - i
  {
    if i < |text| && IsDigit(text[i]) then SkipDigits(text, i + 1) else i
  }

  predicate DigitAt(text: string, i: nat) { i < |text| && IsDigit(text[i]) }

  // ---------- Numbers ----------

  /** End of an optional sign, a digit one to nine and more digits, or of an optional sign and a
      zero. */
  function IntegerPart(text: string, start: nat): (end: Option<nat>)
    requires start <= |text|
    ensures end.Some? ==> start < end.value <= |text|
    ensures end.Some? ==> AllDigits(text[start..end.value])
                          || (text[start] == '-' && AllDigits(text[start..end.value][1..]))
  {
    var first := if CharIs(text, start, '-') then start + 1 else start;
    if DigitAt(text, first) && text[first] != '0' then
      var end := SkipDigits(text, first + 1);
      assert text[first..end] == [text[first]] + text[first + 1..end];
      assert text[start..end][first - start..] == text[first..end];
      Some(end)
    else if CharIs(text, first, '0') then
      assert text[start..first + 1][first - start..] == ['0'];
      Some(first + 1)
    else None
  }

  function DecimalPart(text: string, i: nat): (end: nat)
    requires i <= |text|
    ensures i <= end <= |text|
  {
    if CharIs(text, i, '.') && DigitAt(text, i + 1) then SkipDigits(text, i + 1) else i
  }

  function ExponentPart(text: string, i: nat): (end: nat)
    requires i <= |text|
    ensures i <= end <= |text|
  {
    if CharIs(text, i, 'e') || CharIs(text, i, 'E') then
      var digits := if CharIs(text, i + 1, '+') || CharIs(text, i + 1, '-') then i + 2 else i + 1;
      if DigitAt(text, digits) then SkipDigits(text, digits) else i
    else i
  }

  function NumberAt(text: string, start: nat): (r: Result<Parse<Value>, DecodeError>)
    requires start <= |text|
    ensures r.Success? ==> start < r.value.next <= |text|
  {
    match IntegerPart(text, start)
    case None => Failure(ExpectedNumber)
    case Some(integer) =>
      var end := ExponentPart(text, DecimalPart(text, integer));
      Success(Parse(if end == integer then VInt(IntOf(text[start..end])) else VFloat(text[start..end]), end))
  }

  // ---------- Values ----------

  /** Assignment to a Lua table: a nil removes the key. */
  function Assign(entries: map<Key, Value>, k: Key, v: Value): map<Key, Value> {
    if v == VNil then entries - {k} else entries[k := v]
  }

  function Left(text: string, i: nat): nat {
    if i <= |text| then |text| - i else 0
  }

  function AsText(r: Result<Parse<string>, DecodeError>): Result<Parse<Value>, DecodeError> {
    match r
    case Success(p) => Success(Parse(VText(p.value), p.next))
    case Failure(e) => Failure(e)
  }

  function OneAt(text: string, start: nat): (r: Result<Parse<Value>, DecodeError>)
    ensures r.Success? ==> start < r.value.next <= |text|
    decreases Left(text, start), 2
  {
    var i := SkipWhitespace(text, start);
    if i >= |text| then Failure(UnexpectedEnd)
    else if text[i] == '"' then AsText(StringAt(text, i))
    else if text[i] == '-' || IsDigit(text[i]) || text[i] == ' ' then NumberAt(text, i)
    else if text[i] == '{' then ObjectAt(text, i)
    else if text[i] == '[' then ArrayAt(text, i)
    else LiteralAt(text, i)
  }

  function LiteralAt(text: string, i: nat): (r: Result<Parse<Value>, DecodeError>)
    ensures r.Success? ==> i < r.value.next <= |text|
  {
    if At(text, i, "true") then AtBound(text, i, "true"); Success(Parse(VBool(true), i + 4))
    else if At(text, i, "false") then AtBound(text, i, "false"); Success(Parse(VBool(false), i + 5))
    else if At(text, i, "null") then AtBound(text, i, "null"); Success(Parse(VNil, i + 4))
    else Failure(CannotParse)
  }

  function ObjectAt(text: string, start: nat): (r: Result<Parse<Value>, DecodeError>)
    requires CharIs(text, start, '{')
    ensures r.Success? ==> start < r.value.next <= |text|
    decreases Left(text, start), 1
  {
    var i := SkipWhitespace(text, start + 1);
    if CharIs(text, i, '}') then Success(Parse(VTable(map[]), i + 1)) else MembersFrom(text, i, map[])
  }

  /** The object loop from position `i` on, `entries` being read already. */
  function MembersFrom(text: string, i: nat, entries: map<Key, Value>): (r: Result<Parse<Value>, DecodeError>)
    ensures r.Success? ==> i < r.value.next <= |text|
    decreases Left(text, i), 0
  {
    if i >= |text| then Failure(UnclosedBrace)
    else match MemberAt(text, i)
      case Failure(e) => Failure(e)
      case Success(m) =>
        var (k, v) := m.value;
        var entries' := Assign(entries, Str(k), v);
        if CharIs(text, m.next, '}') then Success(Parse(VTable(entries'), m.next + 1))
        else if !CharIs(text, m.next, ',') then Failure(ExpectedCommaOrBrace)
        else MembersFrom(text, SkipWhitespace(text, m.next + 1), entries')
  }

  /** A key, a colon, a value, and the whitespace behind it. */
  function MemberAt(text: string, i: nat): (r: Result<Parse<(string, Value)>, DecodeError>)
    requires i < |text|
    ensures r.Success? ==> i < r.value.next <= |text|
    decreases Left(text, i), 0, 0
  {
    match StringAt(text, i)
    case Failure(e) => Failure(e)
    case Success(k) =>
      var colon := SkipWhitespace(text, k.next);
      if !CharIs(text, colon, ':') then Failure(ExpectedColon)
      else match OneAt(text, SkipWhitespace(text, colon + 1))
        case Failure(e) => Failure(e)
        case Success(v) => Success(Parse((k.value, v.value), SkipWhitespace(text, v.next)))
  }

  function ArrayAt(text: string, start: nat): (r: Result<Parse<Value>, DecodeError>)
    requires CharIs(text, start, '[')
    ensures r.Success? ==> start < r.value.next <= |text|
    decreases Left(text, start), 1
  {
    var i := SkipWhitespace(text, start + 1);
    if CharIs(text, i, ']') then Success(Parse(VTable(map[]), i + 1)) else ItemsFrom(text, i, 1, map[])
  }

  /** The array loop from position `i` on; the next item goes to `index`. */
  function ItemsFrom(text: string, i: nat, index: nat, entries: map<Key, Value>): (r: Result<Parse<Value>, DecodeError>)
    ensures r.Success? ==> i < r.value.next <= |text|
    decreases Left(text, i), 3
  {
    if i >= |text| then Failure(UnclosedBracket)
    else match OneAt(text, i)
      case Failure(e) => Failure(e)
      case Success(v) =>
        var entries' := Assign(entries, Num(index), v.value);
        var end := SkipWhitespace(text, v.next);
        if CharIs(text, end, ']') then Success(Parse(VTable(entries'), end + 1))
        else if !CharIs(text, end, ',') then Failure(ExpectedCommaOrBracket)
        else ItemsFrom(text, SkipWhitespace(text, end + 1), index + 1, entries')
  }

  /** `decode`: text behind the first value is ignored. */
  function Decode(text: string): Result<Value, DecodeError> {
    if SkipSpace(text, 0) >= |text| then Success(VNil)
    else if text[SkipSpace(text, 0)] == '<' then Failure(Html)
    else if text[0] == '\0' || (|text| >= 2 && text[1] == '\0') then Failure(NotUtf8)
    else match OneAt(text, 0)
      case Success(p) => Success(p.value)
      case Failure(e) => Failure(e)
  }

  // ---------- The loops ----------

  method GrokOne(text: string, start: nat) returns (r: Result<Parse<Value>, DecodeError>)
    ensures r == OneAt(text, start)
    decreases Left(text, start), 2
  {
    var i := SkipWhitespace(text, start);
    if i >= |text| {
      return Failure(UnexpectedEnd);
    }
    if text[i] == '"' {
      var s := GrokString(text, i);
      r := AsText(s);
    } else if text[i] == '-' || IsDigit(text[i]) || text[i] == ' ' {
      r := NumberAt(text, i);
    } else if text[i] == '{' {
      r := GrokObject(text, i);
    } else if text[i] == '[' {
      r := GrokArray(text, i);
    } else {
      r := LiteralAt(text, i);
    }
  }

  method GrokObject(text: string, start: nat) returns (r: Result<Parse<Value>, DecodeError>)
    requires CharIs(text, start, '{')
    ensures r == ObjectAt(text, start)
    decreases Left(text, start), 1
  {
    hide StringAt, OneAt;
    var i := SkipWhitespace(text, start + 1);
    var value: map<Key, Value> := map[];
    if CharIs(text, i, '}') {
      return Success(Parse(VTable(value), i + 1));
    }
    while i < |text|
      invariant start < i
      invariant MembersFrom(text, i, value) == ObjectAt(text, start)
    {
      var key := GrokString(text, i);
      if key.Failure? {
        return Failure(key.error);
      }
      var colon := SkipWhitespace(text, key.value.next);
      if !CharIs(text, colon, ':') {
        return Failure(ExpectedColon);
      }
      var newVal := GrokOne(text, SkipWhitespace(text, colon + 1));
      if newVal.Failure? {
        return Failure(newVal.error);
      }
      value := Assign(value, Str(key.value.value), newVal.value.value);
      var end := SkipWhitespace(text, newVal.value.next);
      if CharIs(text, end, '}') {
        return Success(Parse(VTable(value), end + 1));
      }
      if !CharIs(text, end, ',') {
        return Failure(ExpectedCommaOrBrace);
      }
      i := SkipWhitespace(text, end + 1);
    }
    return Failure(UnclosedBrace);
  }

  method GrokArray(text: string, start: nat) returns (r: Result<Parse<Value>, DecodeError>)
    requires CharIs(text, start, '[')
    ensures r == ArrayAt(text, start)
    decreases Left(text, start), 1
  {
    hide OneAt;
    var i := SkipWhitespace(text, start + 1);
    var value: map<Key, Value> := map[];
    if CharIs(text, i, ']') {
      return Success(Parse(VTable(value), i + 1));
    }
    var valueIndex := 1;
    while i < |text|
      invariant start < i && valueIndex > 0
      invariant ItemsFrom(text, i, valueIndex, value) == ArrayAt(text, start)
    {
      var val := GrokOne(text, i);
      if val.Failure? {
        return Failure(val.error);
      }
      value := Assign(value, Num(valueIndex), val.value.value);
      valueIndex := valueIndex + 1;
      var end := SkipWhitespace(text, val.value.next);
      if CharIs(text, end, ']') {
        return Success(Parse(VTable(value), end + 1));
      }
      if !CharIs(text, end, ',') {
        return Failure(ExpectedCommaOrBracket);
      }
      i := SkipWhitespace(text, end + 1);
    }
    return Failure(UnclosedBracket);
  }
}
