/**
 The fuzzy matcher of subsequence_match/src/lib.rs: a greedy subsequence search behind a bitset filter.
 A bitset is a set of numbers, a hash set of candidates a set of texts; the filter is kept per text.
 */
module FuzzyMatcher {
  import opened Wrappers

  const NUM_CHARS := 127

  datatype MatchCase = Yes | No

  predicate IsAscii(c: char) { c as int < 0x80 }

  function ToAsciiLowercase(c: char): char {
    if 'A' <= c <= 'Z' then (c as int + 32) as char else c
  }

  predicate SameLetter(q: char, c: char, matchCase: MatchCase) {
    match matchCase
    case Yes => q == c
    case No => ToAsciiLowercase(q) == ToAsciiLowercase(c)
  }

  function Upper(i: nat): char
    requires i < 26
  {
    "ABCDEFGHIJKLMNOPQRSTUVWXYZ"[i]
  }

  function Lower(i: nat): char
    requires i < 26
  {
    "abcdefghijklmnopqrstuvwxyz"[i]
  }

  /** The two letters are the `i`th of the alphabet, one in either case. */
  predicate CasesOf(a: char, b: char, i: nat) {
    i < 26 && ((a == Upper(i) && b == Lower(i)) || (a == Lower(i) && b == Upper(i)))
  }

  /** The same character, or one letter in its two cases. */
  ghost predicate SameButCase(a: char, b: char) { a == b || exists i :: CasesOf(a, b, i) }

  lemma Alphabet(i: nat)
    requires i < 26
    ensures Upper(i) as int == 65 + i && Lower(i) as int == 97 + i
  {
  }

  /** Without regard to case, letters match exactly when they are equal or the two cases of one letter. */
  lemma SameLetterIff(q: char, c: char)
    ensures SameLetter(q, c, No) <==> SameButCase(q, c)
    ensures SameLetter(q, c, Yes) <==> q == c
  {
    hide Upper, Lower;
    if i :| CasesOf(q, c, i) {
      Alphabet(i);
    } else if q != c && SameLetter(q, c, No) {
      var i := if 'A' <= q <= 'Z' then q as int - 65 else c as int - 65;
      Alphabet(i);
      assert CasesOf(q, c, i);
    }
  }

  /** So neither the case of the query nor that of the candidate matters. */
  lemma CaseDoesNotMatter(candidate: string, candidate': string, query: string, query': string, indices: seq<nat>)
    requires |candidate| == |candidate'|
    requires forall i :: 0 <= i < |candidate| ==> SameButCase(candidate[i], candidate'[i])
    requires |query| == |query'| && forall i :: 0 <= i < |query| ==> SameButCase(query[i], query'[i])
    ensures Embeds(candidate, query, No, indices) <==> Embeds(candidate', query', No, indices)
  {
    hide Upper, Lower;
    forall i | 0 <= i < |candidate|
      ensures ToAsciiLowercase(candidate[i]) == ToAsciiLowercase(candidate'[i])
      ensures IsAscii(candidate[i]) <==> IsAscii(candidate'[i])
    {
      SameLetterIff(candidate[i], candidate'[i]);
      if k :| CasesOf(candidate[i], candidate'[i], k) {
        Alphabet(k);
      }
    }
    forall i | 0 <= i < |query| ensures ToAsciiLowercase(query[i]) == ToAsciiLowercase(query'[i]) {
      SameLetterIff(query[i], query'[i]);
    }
    hide ToAsciiLowercase, SameButCase;
  }

  // ---------- What a match is ----------

  /** `indices` picks ASCII characters of the candidate that spell the query. */
  ghost predicate Embeds(candidate: string, query: string, matchCase: MatchCase, indices: seq<nat>) {
    && |indices| == |query|
    && (forall k :: 0 <= k < |indices| ==> indices[k] < |candidate| && IsAscii(candidate[indices[k]]))
    && (forall k :: 0 <= k < |indices| ==> SameLetter(query[k], candidate[indices[k]], matchCase))
    && (forall j, k :: 0 <= j < k < |indices| ==> indices[j] < indices[k])
  }

  ghost predicate Matches(candidate: string, query: string, matchCase: MatchCase) {
    exists indices :: Embeds(candidate, query, matchCase, indices)
  }

  ghost predicate NowhereLater(indices: seq<nat>, other: seq<nat>) {
    |indices| == |other| && forall k :: 0 <= k < |indices| ==> indices[k] <= other[k]
  }

  /** The embedding that is nowhere later than any other. */
  ghost predicate IsEarliest(candidate: string, query: string, matchCase: MatchCase, indices: seq<nat>) {
    && Embeds(candidate, query, matchCase, indices)
    && forall other :: Embeds(candidate, query, matchCase, other) ==> NowhereLater(indices, other)
  }

  function Sum(s: seq<nat>): nat {
    if s == [] then 0 else s[0] + Sum(s[1..])
  }

  lemma {:induction false} SumIsLeast(indices: seq<nat>, other: seq<nat>)
    requires NowhereLater(indices, other)
    ensures Sum(indices) <= Sum(other)
  {
    if indices != [] {
      SumIsLeast(indices[1..], other[1..]);
    }
  }

  /** Every step that a letter is found later counts: a match whose letters come `d` places later in all has a
      score higher by just `d`. */
  lemma {:induction false} SumCountsPlaces(indices: seq<nat>, k: nat, d: nat)
    requires k < |indices|
    ensures Sum(indices[k := indices[k] + d]) == Sum(indices) + d
    ensures Sum(seq(|indices|, _ => 0)) == 0
    decreases |indices|
  {
    var later := indices[k := indices[k] + d];
    assert seq(|indices|, _ => 0)[1..] == seq(|indices| - 1, _ => 0);
    if |indices| > 1 {
      SumCountsPlaces(indices[1..], if k > 0 then k - 1 else 0, d);
    }
    assert later[1..] == if k == 0 then indices[1..] else indices[1..][k - 1 := indices[k] + d];
  }

  /** No embedding has a lower score than the earliest. */
  lemma EarliestScoresLeast(candidate: string, query: string, matchCase: MatchCase, indices: seq<nat>, other: seq<nat>)
    requires IsEarliest(candidate, query, matchCase, indices) && Embeds(candidate, query, matchCase, other)
    ensures Sum(indices) <= Sum(other)
  {
    SumIsLeast(indices, other);
  }

  lemma EarliestIsUnique(candidate: string, query: string, matchCase: MatchCase, a: seq<nat>, b: seq<nat>)
    requires IsEarliest(candidate, query, matchCase, a) && IsEarliest(candidate, query, matchCase, b)
    ensures a == b
  {
    assert NowhereLater(a, b) && NowhereLater(b, a);
  }

  // ---------- The greedy search ----------

  /** The search has seen the candidate up to `i` and matched the first letters of the query at
      `indices`, each as early as any embedding could. */
  ghost predicate Searched(candidate: string, query: string, matchCase: MatchCase, i: nat, indices: seq<nat>) {
    && i <= |candidate| && |indices| <= |query|
    && Embeds(candidate, query[..|indices|], matchCase, indices)
    && (forall k :: 0 <= k < |indices| ==> indices[k] < i)
    && (forall e :: Embeds(candidate, query, matchCase, e) ==> Ahead(indices, i, e))
  }

  /** The embedding is nowhere earlier, and its next letter is still to come. */
  ghost predicate Ahead(indices: seq<nat>, i: nat, e: seq<nat>) {
    && |indices| <= |e|
    && (forall k :: 0 <= k < |indices| ==> indices[k] <= e[k])
    && (|indices| < |e| ==> i <= e[|indices|])
  }

  lemma SearchPasses(candidate: string, query: string, matchCase: MatchCase, i: nat, indices: seq<nat>)
    requires Searched(candidate, query, matchCase, i, indices) && i < |candidate| && |indices| < |query|
    requires !IsAscii(candidate[i]) || !SameLetter(query[|indices|], candidate[i], matchCase)
    ensures Searched(candidate, query, matchCase, i + 1, indices)
  {
    hide SameLetter, IsAscii;
    forall e | Embeds(candidate, query, matchCase, e) ensures Ahead(indices, i + 1, e) {
      assert Ahead(indices, i, e);
      assert e[|indices|] != i;
    }
  }

  lemma SearchAdvances(candidate: string, query: string, matchCase: MatchCase, i: nat, indices: seq<nat>)
    requires Searched(candidate, query, matchCase, i, indices) && i < |candidate| && |indices| < |query|
    requires IsAscii(candidate[i]) && SameLetter(query[|indices|], candidate[i], matchCase)
    ensures Searched(candidate, query, matchCase, i + 1, indices + [i])
  {
    hide SameLetter, IsAscii;
    var indices' := indices + [i];
    assert query[..|indices'|] == query[..|indices|] + [query[|indices|]];
    forall e | Embeds(candidate, query, matchCase, e) ensures Ahead(indices', i + 1, e) {
      assert Ahead(indices, i, e);
      if |indices'| < |e| {
        assert e[|indices|] < e[|indices'|];
      }
    }
  }

  /** `is_subsequence`: it finds an embedding exactly when there is one, and then the earliest. */
  method IsSubsequence(candidate: string, query: string, matchCase: MatchCase) returns (r: Option<seq<nat>>)
    ensures r.Some? <==> Matches(candidate, query, matchCase)
    ensures r.Some? ==> IsEarliest(candidate, query, matchCase, r.value)
  {
    hide Searched, SameLetter, IsAscii;
    var matchingIndices: seq<nat> := [];
    NothingSearched(candidate, query, matchCase);
    for index := 0 to |candidate|
      invariant Searched(candidate, query, matchCase, index, matchingIndices)
      invariant |matchingIndices| <= |query|
    {
      if !IsAscii(candidate[index]) {
        if |matchingIndices| == |query| {
          AllFound(candidate, query, matchCase, index, matchingIndices);
          StaysFound(candidate, query, matchCase, index, matchingIndices);
        } else {
          SearchPasses(candidate, query, matchCase, index, matchingIndices);
        }
        continue;
      }
      if |matchingIndices| == |query| {
        AllFound(candidate, query, matchCase, index, matchingIndices);
        return Some(matchingIndices);
      }
      if SameLetter(query[|matchingIndices|], candidate[index], matchCase) {
        SearchAdvances(candidate, query, matchCase, index, matchingIndices);
        matchingIndices := matchingIndices + [index];
        LengthFits(candidate, query, matchCase, index + 1, matchingIndices);
      } else {
        SearchPasses(candidate, query, matchCase, index, matchingIndices);
      }
    }
    if |matchingIndices| == |query| {
      AllFound(candidate, query, matchCase, |candidate|, matchingIndices);
      return Some(matchingIndices);
    }
    NoneFound(candidate, query, matchCase, matchingIndices);
    return None;
  }

  lemma NothingSearched(candidate: string, query: string, matchCase: MatchCase)
    ensures Searched(candidate, query, matchCase, 0, [])
  {
  }

  lemma LengthFits(candidate: string, query: string, matchCase: MatchCase, i: nat, indices: seq<nat>)
    requires Searched(candidate, query, matchCase, i, indices)
    ensures |indices| <= |query|
  {
  }

  lemma StaysFound(candidate: string, query: string, matchCase: MatchCase, i: nat, indices: seq<nat>)
    requires Searched(candidate, query, matchCase, i, indices) && i < |candidate| && |indices| == |query|
    ensures Searched(candidate, query, matchCase, i + 1, indices)
  {
    forall e | Embeds(candidate, query, matchCase, e) ensures Ahead(indices, i + 1, e) {
      assert Ahead(indices, i, e);
    }
  }

  lemma AllFound(candidate: string, query: string, matchCase: MatchCase, i: nat, indices: seq<nat>)
    requires Searched(candidate, query, matchCase, i, indices) && |indices| == |query|
    ensures IsEarliest(candidate, query, matchCase, indices) && Matches(candidate, query, matchCase)
  {
    assert query[..|indices|] == query;
    forall e | Embeds(candidate, query, matchCase, e) ensures NowhereLater(indices, e) {
      assert Ahead(indices, i, e);
    }
  }

  lemma NoneFound(candidate: string, query: string, matchCase: MatchCase, indices: seq<nat>)
    requires Searched(candidate, query, matchCase, |candidate|, indices) && |indices| < |query|
    ensures !Matches(candidate, query, matchCase)
  {
    forall e ensures !Embeds(candidate, query, matchCase, e) {
      assert Embeds(candidate, query, matchCase, e) ==> Ahead(indices, |candidate|, e);
    }
  }

  // ---------- The filter ----------

  function LetterToIndex(letter: nat): nat { letter % NUM_CHARS }

  /** The bit of some ASCII character of the string, in lower case. */
  ghost predicate InBitset(s: string, n: nat) {
    exists c :: c in s && IsAscii(c) && LetterToIndex(ToAsciiLowercase(c) as int) == n
  }

  /** The bits tell all ASCII characters apart but the two cases of a letter, and but the first and the
      last, which share one bit. */
  lemma BitsTellApart(c: char, d: char)
    requires IsAscii(c) && IsAscii(d)
    ensures LetterToIndex(ToAsciiLowercase(c) as int) == LetterToIndex(ToAsciiLowercase(d) as int) <==>
              || SameButCase(c, d)
              || (c == '\0' && d as int == 127) || (d == '\0' && c as int == 127)
  {
    SameLetterIff(c, d);
    hide SameButCase;
  }

  method MakeQueryBitset(s: string) returns (bitset: set<nat>)
    ensures forall n :: n in bitset <==> InBitset(s, n)
  {
    bitset := {};
    for i := 0 to |s|
      invariant forall n :: n in bitset <==> InBitset(s[..i], n)
    {
      assert s[..i + 1] == s[..i] + [s[i]];
      if !IsAscii(s[i]) {
        continue;
      }
      bitset := bitset + {LetterToIndex(ToAsciiLowercase(s[i]) as int)};
    }
    assert s[..|s|] == s;
  }

  /** A query that matches passes the filter: its bits are bits of the candidate, in spite of the modulus,
      the folded case and the skipped characters. */
  lemma FilterKeepsMatches(candidate: string, query: string, matchCase: MatchCase, n: nat)
    requires Matches(candidate, query, matchCase) && InBitset(query, n)
    ensures InBitset(candidate, n)
  {
    var indices :| Embeds(candidate, query, matchCase, indices);
    var c :| c in query && IsAscii(c) && LetterToIndex(ToAsciiLowercase(c) as int) == n;
    var k :| 0 <= k < |query| && query[k] == c;
    assert SameLetter(query[k], candidate[indices[k]], matchCase);
  }

  // ---------- Candidate sets ----------

  datatype QueryResult = QueryResult(text: string, matchingIndices: seq<nat>, score: nat)

  ghost predicate SortedByScore(results: seq<QueryResult>) {
    forall i, j :: 0 <= i < j < |results| ==> results[i].score <= results[j].score
  }

  function InsertByScore(r: QueryResult, results: seq<QueryResult>): seq<QueryResult> {
    if results == [] || r.score < results[0].score then [r] + results
    else [results[0]] + InsertByScore(r, results[1..])
  }

  /** `sort`, by the scores alone. */
  function SortByScore(results: seq<QueryResult>): seq<QueryResult> {
    if results == [] then [] else InsertByScore(results[|results| - 1], SortByScore(results[..|results| - 1]))
  }

  lemma {:induction false} InsertByScoreSorts(r: QueryResult, results: seq<QueryResult>)
    requires SortedByScore(results)
    ensures SortedByScore(InsertByScore(r, results))
  {
    if results != [] && r.score >= results[0].score {
      var rest := InsertByScore(r, results[1..]);
      InsertByScoreSorts(r, results[1..]);
      InsertByScoreCounts(r, results[1..]);
      hide InsertByScore;
      RestScores(r, results, rest);
    }
  }

  lemma {:induction false} InsertByScoreCounts(r: QueryResult, results: seq<QueryResult>)
    ensures multiset(InsertByScore(r, results)) == multiset(results) + multiset{r}
  {
    if results != [] {
      InsertByScoreCounts(r, results[1..]);
      assert results == [results[0]] + results[1..];
    }
  }

  lemma RestScores(r: QueryResult, results: seq<QueryResult>, rest: seq<QueryResult>)
    requires results != [] && SortedByScore(results) && results[0].score <= r.score
    requires multiset(rest) == multiset(results[1..]) + multiset{r}
    ensures forall j :: 0 <= j < |rest| ==> results[0].score <= rest[j].score
  {
    forall j | 0 <= j < |rest| ensures results[0].score <= rest[j].score {
      assert rest[j] in multiset(rest);
      assert rest[j] == r || rest[j] in results[1..];
    }
  }

  lemma {:induction false} SortByScoreSorts(results: seq<QueryResult>)
    ensures SortedByScore(SortByScore(results)) && multiset(SortByScore(results)) == multiset(results)
    decreases |results|
  {
    if results != [] {
      var front, last := results[..|results| - 1], results[|results| - 1];
      SortByScoreSorts(front);
      InsertByScoreSorts(last, SortByScore(front));
      InsertByScoreCounts(last, SortByScore(front));
      assert results == front + [last];
    }
  }

  /** The result an unfiltered search gives for a text. */
  ghost predicate IsResult(r: QueryResult, query: string, matchCase: MatchCase) {
    IsEarliest(r.text, query, matchCase, r.matchingIndices) && r.score == Sum(r.matchingIndices)
  }

  /** The results are those of the matching texts among `texts`, each text once. */
  ghost predicate Answers(results: seq<QueryResult>, texts: set<string>, query: string, matchCase: MatchCase) {
    && (forall i :: 0 <= i < |results| ==> results[i].text in texts && IsResult(results[i], query, matchCase))
    && (forall i, j :: 0 <= i < j < |results| ==> results[i].text != results[j].text)
    && (forall t :: t in texts && Matches(t, query, matchCase) ==> Answered(results, t))
  }

  ghost predicate Answered(results: seq<QueryResult>, t: string) {
    exists i :: 0 <= i < |results| && results[i].text == t
  }

  lemma AnswersSkip(results: seq<QueryResult>, texts: set<string>, query: string, matchCase: MatchCase, t: string)
    requires Answers(results, texts, query, matchCase) && !Matches(t, query, matchCase)
    ensures Answers(results, texts + {t}, query, matchCase)
  {
    hide IsResult, Matches;
  }

  lemma AnswersAdd(results: seq<QueryResult>, texts: set<string>, query: string, matchCase: MatchCase, r: QueryResult)
    requires Answers(results, texts, query, matchCase) && r.text !in texts && IsResult(r, query, matchCase)
    ensures Answers(results + [r], texts + {r.text}, query, matchCase)
  {
    hide IsResult, Matches;
    var results' := results + [r];
    forall t | t in texts + {r.text} && Matches(t, query, matchCase) ensures Answered(results', t) {
      if t == r.text {
        assert results'[|results|].text == t;
      } else {
        var i :| 0 <= i < |results| && results[i].text == t;
        assert results'[i].text == t;
      }
    }
  }

  lemma AnswersPermute(results: seq<QueryResult>, sorted: seq<QueryResult>, texts: set<string>, query: string,
      matchCase: MatchCase)
    requires Answers(results, texts, query, matchCase) && multiset(sorted) == multiset(results)
    ensures Answers(sorted, texts, query, matchCase)
  {
    hide IsResult, Matches;
    forall i | 0 <= i < |sorted| ensures sorted[i] in results {
      assert sorted[i] in multiset(results);
    }
    forall i, j | 0 <= i < j < |sorted| ensures sorted[i].text != sorted[j].text {
      NoTextTwice(results, sorted, i, j);
    }
    forall t | t in texts && Matches(t, query, matchCase) ensures Answered(sorted, t) {
      var i :| 0 <= i < |results| && results[i].text == t;
      assert results[i] in multiset(sorted);
    }
  }

  lemma NoTextTwice(results: seq<QueryResult>, sorted: seq<QueryResult>, i: nat, j: nat)
    requires forall k, l :: 0 <= k < l < |results| ==> results[k].text != results[l].text
    requires multiset(sorted) == multiset(results) && i < j < |sorted|
    ensures sorted[i].text != sorted[j].text
  {
    var x, y := sorted[i], sorted[j];
    assert x in multiset(results) && y in multiset(results);
    var k :| 0 <= k < |results| && results[k] == x;
    var l :| 0 <= l < |results| && results[l] == y;
    if x == y {
      Twice(sorted, i, j);
      Once(results, k);
    }
  }

  lemma Twice(s: seq<QueryResult>, i: nat, j: nat)
    requires i < j < |s| && s[i] == s[j]
    ensures multiset(s)[s[i]] >= 2
  {
    assert s == s[..j] + [s[j]] + s[j + 1..];
    assert s[..j][i] == s[i] && s[i] in multiset(s[..j]);
  }

  lemma Once(s: seq<QueryResult>, k: nat)
    requires k < |s| && forall i, j :: 0 <= i < j < |s| ==> s[i].text != s[j].text
    ensures multiset(s)[s[k]] == 1
  {
    assert s == s[..k] + [s[k]] + s[k + 1..];
    assert s[k] !in s[..k] && s[k] !in s[k + 1..];
  }

  /** The answer is settled but for the order of equal scores. */
  lemma AnswersAgree(a: seq<QueryResult>, b: seq<QueryResult>, texts: set<string>, query: string,
      matchCase: MatchCase, r: QueryResult)
    requires Answers(a, texts, query, matchCase) && Answers(b, texts, query, matchCase)
    ensures r in a <==> r in b
  {
    if r in a {
      AnswerIsShared(a, b, texts, query, matchCase, r);
    }
    if r in b {
      AnswerIsShared(b, a, texts, query, matchCase, r);
    }
  }

  lemma AnswerIsShared(a: seq<QueryResult>, b: seq<QueryResult>, texts: set<string>, query: string,
      matchCase: MatchCase, r: QueryResult)
    requires Answers(a, texts, query, matchCase) && Answers(b, texts, query, matchCase) && r in a
    ensures r in b
  {
    hide IsEarliest, Embeds;
    EarliestMatches(r.text, query, matchCase, r.matchingIndices);
    assert Answered(b, r.text);
    var i :| 0 <= i < |b| && b[i].text == r.text;
    EarliestIsUnique(r.text, query, matchCase, r.matchingIndices, b[i].matchingIndices);
    assert b[i] == r;
  }

  lemma EarliestMatches(candidate: string, query: string, matchCase: MatchCase, indices: seq<nat>)
    requires IsEarliest(candidate, query, matchCase, indices)
    ensures Matches(candidate, query, matchCase)
  {
  }

  class CandidateSet {
    var candidates: set<string>

    constructor ()
      ensures candidates == {}
    {
      candidates := {};
    }

    method Insert(text: string)
      modifies this
      ensures candidates == old(candidates) + {text}
    {
      candidates := candidates + {text};
    }

    /** `query`: the matching texts, each exactly once with its earliest embedding, sorted by score. The
        filter leaves out none of them, and the order of the hash set does not matter. */
    method Query(query: string, matchCase: MatchCase) returns (results: seq<QueryResult>)
      ensures Answers(results, candidates, query, matchCase)
      ensures SortedByScore(results)
    {
      hide Answers, IsEarliest, SortedByScore, InBitset;
      var queryBitset := MakeQueryBitset(query);
      results := [];
      ghost var seen: set<string> := {};
      var rest := candidates;
      NoAnswers(query, matchCase);
      while rest != {}
        invariant seen + rest == candidates && seen !! rest
        invariant Answers(results, seen, query, matchCase)
        decreases rest
      {
        var text :| text in rest;
        rest := rest - {text};
        var bitset := MakeQueryBitset(text);
        var matchingIndices: Option<seq<nat>> := None;
        if queryBitset <= bitset {
          matchingIndices := IsSubsequence(text, query, matchCase);
        } else {
          FilterIsRight(text, query, matchCase, queryBitset, bitset);
        }
        if matchingIndices.Some? {
          var r := QueryResult(text, matchingIndices.value, Sum(matchingIndices.value));
          AnswersAdd(results, seen, query, matchCase, r);
          results := results + [r];
        } else {
          AnswersSkip(results, seen, query, matchCase, text);
        }
        seen := seen + {text};
      }
      SortByScoreSorts(results);
      AnswersPermute(results, SortByScore(results), candidates, query, matchCase);
      results := SortByScore(results);
    }
  }

  lemma NoAnswers(query: string, matchCase: MatchCase)
    ensures Answers([], {}, query, matchCase)
  {
  }

  lemma FilterIsRight(text: string, query: string, matchCase: MatchCase, queryBitset: set<nat>, bitset: set<nat>)
    requires forall n :: n in queryBitset <==> InBitset(query, n)
    requires forall n :: n in bitset <==> InBitset(text, n)
    requires !(queryBitset <= bitset)
    ensures !Matches(text, query, matchCase)
  {
    var n :| n in queryBitset && n !in bitset;
    if Matches(text, query, matchCase) {
      FilterKeepsMatches(text, query, matchCase, n);
    }
  }
}
