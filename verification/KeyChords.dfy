/** The splitter of key chords in gui/src/keymap_handler.rs. */
module KeyChords {
  import opened Wrappers

  // ---------- What a chord is made of ----------

  predicate Plain(s: string) { forall k :: 0 <= k < |s| ==> s[k] != '<' && s[k] != '>' }

  /** An opening bracket that is not closed. */
  predicate IsOpen(s: string) { s != "" && s[0] == '<' && Plain(s[1..]) }

  /** One character other than an opening bracket, or a name in brackets. */
  predicate IsKey(s: string) {
    (|s| == 1 && s[0] != '<') || (|s| >= 2 && IsOpen(s[..|s| - 1]) && s[|s| - 1] == '>')
  }

  function Concat(keys: seq<string>): string {
    if keys == [] then "" else keys[0] + Concat(keys[1..])
  }

  /** The text is the keys one after another, and possibly a bracket left open at the end. */
  ghost predicate SplitsAs(text: string, keys: seq<string>, tail: string) {
    && (forall k :: 0 <= k < |keys| ==> IsKey(keys[k]))
    && (tail == "" || IsOpen(tail))
    && text == Concat(keys) + tail
  }

  // ---------- Splitting, on values ----------

  datatype Bracket = Closed(end: nat) | Open | Nested

  /** How the bracket opened at the start of the text goes on from position `i`. */
  function BracketFrom(text: string, i: nat): (b: Bracket)
    ensures b.Closed? ==> i < b.end <= |text|
    decreases |text| - i
  {
    if i >= |text| then Open
    else if text[i] == '<' then Nested
    else if text[i] == '>' then Closed(i + 1)
    else BracketFrom(text, i + 1)
  }

  function Cons(key: string, rest: Option<(seq<string>, string)>): Option<(seq<string>, string)> {
    match rest
    case None => None
    case Some((keys, tail)) => Some(([key] + keys, tail))
  }

  /** The keys of the text, and the bracket left open at its end. */
  function Split(text: string): Option<(seq<string>, string)>
    decreases |text|
  {
    if text == "" then Some(([], ""))
    else if text[0] != '<' then Cons(text[..1], Split(text[1..]))
    else match BracketFrom(text, 1)
      case Nested => None
      case Open => Some(([], text))
      case Closed(end) => Cons(text[..end], Split(text[end..]))
  }

  lemma {:induction false} BracketIsPlain(text: string, i: nat)
    requires text != "" && text[0] == '<' && 1 <= i <= |text| && Plain(text[1..i])
    ensures match BracketFrom(text, i)
            case Closed(end) => end >= 2 && IsKey(text[..end])
            case Open => IsOpen(text)
            case Nested => true
    decreases |text| - i
  {
    if i == |text| {
      assert text[1..i] == text[1..];
    } else if text[i] == '>' {
      assert text[..i + 1][..i] == text[..i] && text[..i][1..] == text[1..i];
    } else if text[i] != '<' {
      assert text[1..i + 1] == text[1..i] + [text[i]];
      BracketIsPlain(text, i + 1);
    }
  }

  lemma {:induction false} BracketSkips(text: string, i: nat, j: nat)
    requires i <= j <= |text| && Plain(text[i..j])
    ensures BracketFrom(text, i) == BracketFrom(text, j)
    decreases j - i
  {
    if i < j {
      assert text[i..j][0] == text[i] && text[i..j][1..] == text[i + 1..j];
      BracketSkips(text, i + 1, j);
    }
  }

  /** What is split off are keys, and with the tail they make up the text. */
  lemma {:induction false} SplitSound(text: string)
    requires Split(text).Some?
    ensures SplitsAs(text, Split(text).value.0, Split(text).value.1)
    decreases |text|
  {
    if text == "" {
    } else if text[0] != '<' {
      SplitSound(text[1..]);
      ConsSplits(text[..1], text[1..], Split(text[1..]).value.0, Split(text[1..]).value.1);
      assert text == text[..1] + text[1..];
    } else {
      BracketIsPlain(text, 1);
      match BracketFrom(text, 1)
      case Open => assert "" + text == text;
      case Closed(end) =>
        SplitSound(text[end..]);
        ConsSplits(text[..end], text[end..], Split(text[end..]).value.0, Split(text[end..]).value.1);
        assert text == text[..end] + text[end..];
    }
  }

  lemma ConsSplits(key: string, rest: string, keys: seq<string>, tail: string)
    requires IsKey(key) && SplitsAs(rest, keys, tail)
    ensures SplitsAs(key + rest, [key] + keys, tail)
  {
    assert ([key] + keys)[1..] == keys;
    assert key + (Concat(keys) + tail) == (key + Concat(keys)) + tail;
  }

  lemma KeyThenRest(key: string, rest: string)
    requires IsKey(key)
    ensures Split(key + rest) == Cons(key, Split(rest))
  {
    var text := key + rest;
    assert |key| >= 2 ==> key[..|key| - 1][0] == key[0];
    assert text[..|key|] == key && text[|key|..] == rest && text[0] == key[0];
    if key[0] == '<' {
      var last := |key| - 1;
      assert key[..last][1..] == text[1..last];
      BracketSkips(text, 1, last);
      assert text[last] == '>';
    }
  }

  /** The only way to split a text is the one found. */
  lemma {:induction false} SplitComplete(text: string, keys: seq<string>, tail: string)
    requires SplitsAs(text, keys, tail)
    ensures Split(text) == Some((keys, tail))
    decreases |keys|
  {
    if keys == [] {
      assert text == tail;
      if tail != "" {
        BracketSkips(tail, 1, |tail|);
      }
    } else {
      var rest := Concat(keys[1..]) + tail;
      assert text == keys[0] + rest;
      SplitComplete(rest, keys[1..], tail);
      KeyThenRest(keys[0], rest);
      assert [keys[0]] + keys[1..] == keys;
    }
  }

  // ---------- The loop ----------

  function Prepend(done: seq<string>, rest: Option<(seq<string>, string)>): Option<(seq<string>, string)> {
    match rest
    case None => None
    case Some((keys, tail)) => Some((done + keys, tail))
  }

  lemma PrependLaws(done: seq<string>, key: string, rest: Option<(seq<string>, string)>)
    ensures Prepend(done, Cons(key, rest)) == Prepend(done + [key], rest)
    ensures Prepend([], rest) == rest && Prepend(done, None) == None
  {
    if rest.Some? {
      assert done + ([key] + rest.value.0) == (done + [key]) + rest.value.0;
      assert [] + rest.value.0 == rest.value.0;
    }
  }

  lemma NestedFails(open: string, rest: string)
    requires IsOpen(open) && rest != "" && rest[0] == '<'
    ensures Split(open + rest) == None
  {
    var text := open + rest;
    assert text[1..|open|] == open[1..];
    BracketSkips(text, 1, |open|);
  }

  /**
   `split_by_keys`: it succeeds exactly when the text is a row of keys and at most one bracket left open
   at the end, and gives those keys; the open bracket is dropped.
   */
  method SplitByKeys(chord: string) returns (r: Option<seq<string>>)
    ensures r.Some? <==> exists keys, tail :: SplitsAs(chord, keys, tail)
    ensures r.Some? ==> exists tail :: SplitsAs(chord, r.value, tail)
  {
    hide Split, Prepend, SplitsAs, Cons;
    var rv: seq<string> := [];
    var currentKey := "";
    var seenLessThen := false;
    PrependLaws([], "", Split(chord));
    assert "" + chord[0..] == chord;
    for i := 0 to |chord|
      invariant if seenLessThen then IsOpen(currentKey) else currentKey == ""
      invariant Split(chord) == Prepend(rv, Split(currentKey + chord[i..]))
    {
      var c := chord[i];
      ghost var before := currentKey;
      assert before + chord[i..] == (before + [c]) + chord[i + 1..];
      currentKey := currentKey + [c];
      if c == '<' {
        if seenLessThen {
          NestedFails(before, chord[i..]);
          PrependLaws(rv, "", None);
          NeverSplits(chord);
          return None;
        }
        seenLessThen := true;
      }
      if seenLessThen {
        if c == '>' {
          seenLessThen := false;
          assert currentKey[..|currentKey| - 1] == before;
          KeyThenRest(currentKey, chord[i + 1..]);
          PrependLaws(rv, currentKey, Split(chord[i + 1..]));
          rv := rv + [currentKey];
          currentKey := "";
          assert "" + chord[i + 1..] == chord[i + 1..];
        }
      } else {
        KeyThenRest(currentKey, chord[i + 1..]);
        PrependLaws(rv, currentKey, Split(chord[i + 1..]));
        rv := rv + [currentKey];
        currentKey := "";
        assert "" + chord[i + 1..] == chord[i + 1..];
      }
    }
    assert currentKey + chord[|chord|..] == currentKey;
    EndSplits(rv, currentKey);
    SplitSound(chord);
    return Some(rv);
  }

  lemma EndSplits(rv: seq<string>, currentKey: string)
    requires currentKey == "" || IsOpen(currentKey)
    ensures Prepend(rv, Split(currentKey)) == Some((rv, currentKey))
  {
    assert currentKey == Concat([]) + currentKey;
    SplitComplete(currentKey, [], currentKey);
    assert rv + [] == rv;
  }

  lemma NeverSplits(chord: string)
    requires Split(chord) == None
    ensures !exists keys, tail :: SplitsAs(chord, keys, tail)
  {
    forall keys, tail ensures !SplitsAs(chord, keys, tail) {
      if SplitsAs(chord, keys, tail) {
        SplitComplete(chord, keys, tail);
      }
    }
  }

  /** Splitting undoes joining: a row of keys splits into those keys and nothing else. */
  lemma SplitInvertsConcat(text: string, keys: seq<string>, other: seq<string>, tail: string)
    requires SplitsAs(text, keys, "")
    ensures SplitsAs(text, other, tail) <==> other == keys && tail == ""
  {
    SplitComplete(text, keys, "");
    if SplitsAs(text, other, tail) {
      SplitComplete(text, other, tail);
    }
  }
}
