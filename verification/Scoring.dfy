/** How a query is cut into terms and how a document is scored for them.  Scores are counted in
    hundredths, so that every score the code can give is an integer. */
module Scoring {
  import opened Options
  import opened Text
  import Sorting

  const MODE_BM25 := "bm25"
  const MODE_EMBEDDING := "embedding"
  const MODE_HYBRID := "hybrid"

  // ----- terms --------------------------------------------------------------

  /** The length of the word `s` starts with. */
  function WordLength(s: string): (n: nat)
    ensures n <= |s| && (s != "" && !IsSpace(s[0]) ==> n > 0)
  {
    if s == "" || IsSpace(s[0]) then 0 else 1 + WordLength(s[1..])
  }

  /** Go's strings.Fields. */
  function Fields(s: string): seq<string>
    decreases |s|
  {
    if s == "" then []
    else if IsSpace(s[0]) then Fields(s[1..])
    else [s[..WordLength(s)]] + Fields(s[WordLength(s)..])
  }

  predicate Punctuation(c: char) { c in ".,;:!?()[]{}\"'" }

  function CutLeft(s: string): string {
    if s != "" && Punctuation(s[0]) then CutLeft(s[1..]) else s
  }

  function CutRight(s: string): string {
    if s != "" && Punctuation(s[|s| - 1]) then CutRight(s[..|s| - 1]) else s
  }

  function Cut(s: string): string { CutRight(CutLeft(s)) }

  function Collect(fields: seq<string>): seq<string> {
    if fields == [] then []
    else
      var before, term := Collect(fields[..|fields| - 1]), Cut(fields[|fields| - 1]);
      if term == "" || term in before then before else before + [term]
  }

  function Terms(query: string, lower: char -> char): seq<string> {
    var terms := Collect(Fields(Lower(query, lower)));
    if terms == [] && TrimSpace(query) != "" then [Lower(TrimSpace(query), lower)] else terms
  }

  method Tokenize(query: string, lower: char -> char) returns (terms: seq<string>)
    ensures terms == Terms(query, lower)
  {
    var fields := Fields(Lower(query, lower));
    terms := [];
    var seen: set<string> := {};
    for i := 0 to |fields|
      invariant terms == Collect(fields[..i])
      invariant forall t :: t in seen <==> t in terms
    {
      assert fields[..i + 1][..i] == fields[..i];
      var field := Cut(fields[i]);
      if field == "" {
        continue;
      }
      if field in seen {
        continue;
      }
      seen := seen + {field};
      terms := terms + [field];
    }
    assert fields[..|fields|] == fields;
    if terms == [] && TrimSpace(query) != "" {
      terms := [Lower(TrimSpace(query), lower)];
    }
  }

  /** The collected terms are exactly the words that are more than punctuation, each once. */
  lemma {:induction false} CollectIsExact(fields: seq<string>)
    ensures Sorting.NoRepeats(Collect(fields))
    ensures forall t :: t in Collect(fields) <==> t != "" && exists f :: f in fields && t == Cut(f)
  {
    if fields != [] {
      var init, last := fields[..|fields| - 1], fields[|fields| - 1];
      CollectIsExact(init);
      assert fields == init + [last];
      forall t ensures t in Collect(fields) <==> t != "" && exists f :: f in fields && t == Cut(f) {
        assert last in fields && forall f :: f in fields <==> f in init || f == last;
      }
    }
  }

  /** `s[i..j]` is a word: it has no white space, and there is white space or nothing around it. */
  ghost predicate IsWord(s: string, i: int, j: int) {
    && 0 <= i < j <= |s| && (forall k :: i <= k < j ==> !IsSpace(s[k]))
    && (i == 0 || IsSpace(s[i - 1])) && (j == |s| || IsSpace(s[j]))
  }

  lemma {:induction false} WordLengthIsWord(s: string)
    ensures var n := WordLength(s);
            (forall k :: 0 <= k < n ==> !IsSpace(s[k])) && (n == |s| || IsSpace(s[n]))
  {
    if s != "" && !IsSpace(s[0]) { WordLengthIsWord(s[1..]); }
  }

  ghost predicate HasWord(s: string, w: string) {
    exists i, j :: IsWord(s, i, j) && w == s[i..j]
  }

  /** The words of a text are cut out at the white space around them. */
  lemma {:induction false} FieldsAreWords(s: string)
    ensures forall w :: w in Fields(s) <==> HasWord(s, w)
    decreases |s|
  {
    if s != "" {
      var n := if IsSpace(s[0]) then 1 else WordLength(s);
      WordLengthIsWord(s);
      FieldsAreWords(s[n..]);
      forall w ensures w in Fields(s) <==> HasWord(s, w) {
        WordsAfter(s, n, w);
      }
    }
  }

  /** `n` runes make the first word of the text, or the white space it starts with. */
  ghost predicate StartsWith(s: string, n: nat) {
    && 0 < n <= |s|
    && if IsSpace(s[0]) then n == 1 else (forall k :: 0 <= k < n ==> !IsSpace(s[k])) && (n == |s| || IsSpace(s[n]))
  }

  lemma WordsAfter(s: string, n: nat, w: string)
    requires StartsWith(s, n)
    ensures HasWord(s, w) <==> (!IsSpace(s[0]) && w == s[..n]) || HasWord(s[n..], w)
  {
    if HasWord(s, w) {
      FirstOrLater(s, n, w);
    }
    if HasWord(s[n..], w) {
      WordBefore(s, n, w);
    }
    if !IsSpace(s[0]) && w == s[..n] {
      assert IsWord(s, 0, n) && w == s[0..n];
    }
  }

  lemma FirstOrLater(s: string, n: nat, w: string)
    requires StartsWith(s, n) && HasWord(s, w)
    ensures (!IsSpace(s[0]) && w == s[..n]) || HasWord(s[n..], w)
  {
    var i, j :| IsWord(s, i, j) && w == s[i..j];
    WordAfter(s, n, i, j);
    if i >= n {
      assert s[n..][i - n..j - n] == s[i..j];
      assert IsWord(s[n..], i - n, j - n);
    }
  }

  lemma WordBefore(s: string, n: nat, w: string)
    requires StartsWith(s, n) && HasWord(s[n..], w)
    ensures HasWord(s, w)
  {
    var i, j :| IsWord(s[n..], i, j) && w == s[n..][i..j];
    WordAfter(s, n, i + n, j + n);
    assert IsWord(s, i + n, j + n) && w == s[i + n..j + n];
  }

  /** Past the first word, or the first white space, words stay what they are. */
  lemma WordAfter(s: string, n: nat, i: int, j: int)
    requires StartsWith(s, n)
    ensures IsWord(s, i, j) <==> (i == 0 && j == n && !IsSpace(s[0])) || (i >= n && IsWord(s[n..], i - n, j - n))
  {
  }

  /** Cutting takes punctuation off both ends and nothing else. */
  lemma CutSplits(s: string)
    ensures var n := |s| - |CutLeft(s)|;
            var m := n + |Cut(s)|;
            && 0 <= n <= m <= |s| && AllPunctuation(s[..n]) && Cut(s) == s[n..m] && AllPunctuation(s[m..])
            && (Cut(s) != "" ==> !Punctuation(Cut(s)[0]) && !Punctuation(Cut(s)[|Cut(s)| - 1]))
  {
    CutLeftSplits(s);
    var left := CutLeft(s);
    CutRightSplits(left);
    var n := |s| - |left|;
    var m := n + |Cut(s)|;
    assert s[n..m] == left[..m - n] && s[m..] == left[m - n..];
  }

  ghost predicate AllPunctuation(s: string) {
    forall i :: 0 <= i < |s| ==> Punctuation(s[i])
  }

  lemma {:induction false} CutLeftSplits(s: string)
    ensures var n := |s| - |CutLeft(s)|;
            n >= 0 && CutLeft(s) == s[n..] && AllPunctuation(s[..n])
    ensures CutLeft(s) != "" ==> !Punctuation(CutLeft(s)[0])
  {
    if s != "" && Punctuation(s[0]) {
      CutLeftSplits(s[1..]);
      var n := |s| - |CutLeft(s)|;
      assert s[..n] == [s[0]] + s[1..][..n - 1];
    }
  }

  lemma {:induction false} CutRightSplits(s: string)
    ensures |CutRight(s)| <= |s| && CutRight(s) == s[..|CutRight(s)|] && AllPunctuation(s[|CutRight(s)|..])
    ensures CutRight(s) != "" ==> !Punctuation(CutRight(s)[|CutRight(s)| - 1])
  {
    if s != "" && Punctuation(s[|s| - 1]) {
      var init := s[..|s| - 1];
      CutRightSplits(init);
      assert s[|CutRight(init)|..] == init[|CutRight(init)|..] + [s[|s| - 1]];
    }
  }

  ghost predicate IsCutWord(text: string, t: string) {
    t != "" && exists w :: HasWord(text, w) && t == Cut(w)
  }

  /** The terms are the lower-cased words without the punctuation around them; a query made of nothing else
      is one term as it stands. */
  lemma TermsAreCutWords(query: string, lower: char -> char)
    ensures var text, terms := Lower(query, lower), Terms(query, lower);
            if exists t :: IsCutWord(text, t) then forall t :: t in terms <==> IsCutWord(text, t)
            else terms == if TrimSpace(query) == "" then [] else [Lower(TrimSpace(query), lower)]
  {
    var text := Lower(query, lower);
    var words := Fields(text);
    FieldsAreWords(text);
    CollectIsExact(words);
    forall t ensures t in Collect(words) <==> IsCutWord(text, t) {
    }
    if Collect(words) != [] { assert Collect(words)[0] in Collect(words); }
  }

  /** A query that is not blank always gives terms: distinct and not empty. */
  lemma TermsAreProper(query: string, lower: char -> char)
    ensures Sorting.NoRepeats(Terms(query, lower)) && "" !in Terms(query, lower)
    ensures TrimSpace(query) != "" ==> Terms(query, lower) != []
  {
    CollectIsExact(Fields(Lower(query, lower)));
  }

  // ----- scores -------------------------------------------------------------

  /** How many of the terms occur in the text. */
  function TermHits(terms: seq<string>, text: string): nat {
    if terms == [] then 0
    else TermHits(terms[..|terms| - 1], text) + if Contains(text, terms[|terms| - 1]) then 1 else 0
  }

  /** How many runes of the term occur in the text. */
  function RuneHits(term: string, text: string): nat {
    if term == "" then 0
    else RuneHits(term[..|term| - 1], text) + if term[|term| - 1] in text then 1 else 0
  }

  function AllRuneHits(terms: seq<string>, text: string): nat {
    if terms == [] then 0
    else AllRuneHits(terms[..|terms| - 1], text) + RuneHits(terms[|terms| - 1], text)
  }

  function TextScore(terms: seq<string>, text: string): nat {
    var hits := TermHits(terms, text);
    if hits == 0 && |terms| == 1 then 5 * RuneHits(terms[0], text) else 100 * hits
  }

  function EmbeddingScore(terms: seq<string>, text: string): nat {
    var score := TextScore(terms, text);
    if score > 0 then score * 4 / 5 else 3 * AllRuneHits(terms, text)
  }

  function TitleScore(terms: seq<string>, title: string): nat {
    if title == "" then 0 else 25 * TermHits(terms, title)
  }

  function Score(terms: seq<string>, mode: string, title: string, content: string, lower: char -> char): nat {
    var text := Lower(title + " " + content, lower);
    if mode == MODE_EMBEDDING then EmbeddingScore(terms, text)
    else TextScore(terms, text) + if mode == MODE_HYBRID then TitleScore(terms, Lower(title, lower)) else 0
  }

  lemma OneMore(weight: nat, hits: nat)
    ensures weight * (hits + 1) == weight * hits + weight
  {
  }

  method CountTerms(terms: seq<string>, text: string, weight: nat) returns (score: nat)
    ensures score == weight * TermHits(terms, text)
  {
    score := 0;
    ghost var hits := 0;
    for i := 0 to |terms|
      invariant score == weight * hits && hits == TermHits(terms[..i], text)
    {
      assert terms[..i + 1][..i] == terms[..i];
      if Contains(text, terms[i]) {
        OneMore(weight, hits);
        score := score + weight;
        hits := hits + 1;
      }
    }
    assert terms[..|terms|] == terms;
  }

  method CountRunes(term: string, text: string, weight: nat) returns (score: nat)
    ensures score == weight * RuneHits(term, text)
  {
    score := 0;
    ghost var hits := 0;
    for i := 0 to |term|
      invariant score == weight * hits && hits == RuneHits(term[..i], text)
    {
      assert term[..i + 1][..i] == term[..i];
      if term[i] in text {
        OneMore(weight, hits);
        score := score + weight;
        hits := hits + 1;
      }
    }
    assert term[..|term|] == term;
  }

  method ScoreText(terms: seq<string>, text: string) returns (score: nat)
    ensures score == TextScore(terms, text)
  {
    score := CountTerms(terms, text, 100);
    if score == 0 && |terms| == 1 {
      score := CountRunes(terms[0], text, 5);
    }
  }

  method ScoreEmbedding(terms: seq<string>, text: string) returns (score: nat)
    ensures score == EmbeddingScore(terms, text)
  {
    score := ScoreText(terms, text);
    if score > 0 {
      return score * 4 / 5;
    }
    for i := 0 to |terms|
      invariant score == 3 * AllRuneHits(terms[..i], text)
    {
      assert terms[..i + 1][..i] == terms[..i];
      var hits := CountRunes(terms[i], text, 3);
      score := score + hits;
    }
    assert terms[..|terms|] == terms;
  }

  method ScoreDocument(terms: seq<string>, mode: string, title: string, content: string, lower: char -> char)
    returns (score: nat)
    ensures score == Score(terms, mode, title, content, lower)
  {
    var text := Lower(title + " " + content, lower);
    score := ScoreText(terms, text);
    if mode == MODE_HYBRID && title != "" {
      var extra := CountTerms(terms, Lower(title, lower), 25);
      score := score + extra;
    }
    if mode == MODE_EMBEDDING {
      score := ScoreEmbedding(terms, text);
    }
  }

  // ----- how high documents score -------------------------------------------

  /** Which of the terms occur in the text. */
  ghost function Occurring(terms: seq<string>, text: string): set<int> {
    set i | 0 <= i < |terms| && Contains(text, terms[i])
  }

  /** Which runes of the term occur in the text. */
  ghost function Shared(term: string, text: string): set<int> {
    set i | 0 <= i < |term| && term[i] in text
  }

  lemma {:induction false} TermHitsCount(terms: seq<string>, text: string)
    ensures TermHits(terms, text) == |Occurring(terms, text)|
  {
    if terms != [] {
      var init, n := terms[..|terms| - 1], |terms| - 1;
      TermHitsCount(init, text);
      assert Occurring(terms, text) == Occurring(init, text) + if Contains(text, terms[n]) then {n} else {};
    }
  }

  lemma {:induction false} RuneHitsCount(term: string, text: string)
    ensures RuneHits(term, text) == |Shared(term, text)|
  {
    if term != "" {
      var init, n := term[..|term| - 1], |term| - 1;
      RuneHitsCount(init, text);
      assert Shared(term, text) == Shared(init, text) + if term[n] in text then {n} else {};
    }
  }

  /** Which runes of which terms occur in the text. */
  ghost function AllShared(terms: seq<string>, text: string): set<(int, int)> {
    set i, j | 0 <= i < |terms| && 0 <= j < |terms[i]| && terms[i][j] in text :: (i, j)
  }

  ghost function Tagged<T>(n: int, items: set<T>): set<(int, T)> {
    set j | j in items :: (n, j)
  }

  lemma {:induction false} TaggedCount<T>(n: int, items: set<T>)
    ensures |Tagged(n, items)| == |items|
    decreases |items|
  {
    if |items| == 0 {
      assert Tagged(n, items) == {};
    } else {
      var j :| j in items;
      TaggedCount(n, items - {j});
      assert Tagged(n, items) == Tagged(n, items - {j}) + {(n, j)};
    }
  }

  lemma {:induction false} AllRuneHitsCount(terms: seq<string>, text: string)
    ensures AllRuneHits(terms, text) == |AllShared(terms, text)|
  {
    if terms != [] {
      var init, n := terms[..|terms| - 1], |terms| - 1;
      AllRuneHitsCount(init, text);
      RuneHitsCount(terms[n], text);
      TaggedCount(n, Shared(terms[n], text));
      assert AllShared(terms, text) == AllShared(init, text) + Tagged(n, Shared(terms[n], text));
    }
  }

  lemma NothingOccursInEmpty(terms: seq<string>)
    requires "" !in terms
    ensures Occurring(terms, "") == {}
  {
    forall i | 0 <= i < |terms| ensures !Contains("", terms[i]) {
      assert terms[i] in terms;
    }
  }

  /** In hundredths: each occurring term counts 100, or 80 in embedding mode, and in hybrid mode 25 more if it
      occurs in the title.  Where none occurs, each rune a lone term shares with the text counts 5, or 4 in
      embedding mode; each rune that several share counts 3 in embedding mode. */
  lemma ScoreIs(terms: seq<string>, mode: string, title: string, content: string, lower: char -> char)
    requires "" !in terms
    ensures var text := Lower(title + " " + content, lower);
            var hits := |Occurring(terms, text)|;
            var runes := |AllShared(terms, text)|;
            Score(terms, mode, title, content, lower) ==
            if mode == "embedding" then
              if hits > 0 then 80 * hits else if |terms| == 1 then 4 * runes else 3 * runes
            else
              (if hits > 0 then 100 * hits else if |terms| == 1 then 5 * runes else 0)
              + if mode == "hybrid" then 25 * |Occurring(terms, Lower(title, lower))| else 0
  {
    var text := Lower(title + " " + content, lower);
    TermHitsCount(terms, text);
    TermHitsCount(terms, Lower(title, lower));
    AllRuneHitsCount(terms, text);
    if |terms| == 1 {
      assert terms[..0] == [] && AllRuneHits(terms, text) == RuneHits(terms[0], text);
    }
    if title == "" {
      assert Lower(title, lower) == "";
      NothingOccursInEmpty(terms);
    }
  }

  // ----- which documents score ----------------------------------------------

  predicate SomeTerm(terms: seq<string>, text: string) {
    exists t :: t in terms && Contains(text, t)
  }

  predicate SharesRune(term: string, text: string) {
    exists c :: c in term && c in text
  }

  predicate SomeRune(terms: seq<string>, text: string) {
    exists t :: t in terms && SharesRune(t, text)
  }

  lemma {:induction false} TermHitsPositiveIff(terms: seq<string>, text: string)
    ensures TermHits(terms, text) > 0 <==> SomeTerm(terms, text)
  {
    if terms != [] {
      var init, last := terms[..|terms| - 1], terms[|terms| - 1];
      TermHitsPositiveIff(init, text);
      assert terms == init + [last];
      assert last in terms && forall t :: t in terms <==> t in init || t == last;
      if SomeTerm(init, text) {
        var t :| t in init && Contains(text, t);
        assert t in terms;
      }
    }
  }

  lemma {:induction false} RuneHitsPositiveIff(term: string, text: string)
    ensures RuneHits(term, text) > 0 <==> SharesRune(term, text)
  {
    if term != "" {
      var init, last := term[..|term| - 1], term[|term| - 1];
      RuneHitsPositiveIff(init, text);
      assert term == init + [last];
      assert forall c :: c in term <==> c in init || c == last;
    }
  }

  lemma {:induction false} AllRuneHitsPositiveIff(terms: seq<string>, text: string)
    ensures AllRuneHits(terms, text) > 0 <==> SomeRune(terms, text)
  {
    if terms != [] {
      var init, last := terms[..|terms| - 1], terms[|terms| - 1];
      AllRuneHitsPositiveIff(init, text);
      RuneHitsPositiveIff(last, text);
      assert terms == init + [last];
      assert last in terms && forall t :: t in terms <==> t in init || t == last;
      if SomeRune(init, text) {
        var t :| t in init && SharesRune(t, text);
        assert t in terms;
      }
    }
  }

  lemma OccurrenceSharesRune(text: string, term: string)
    requires term != "" && Contains(text, term)
    ensures term[0] in term && term[0] in text
  {
    var at := Find(text, term).value;
    assert text[at] == text[at..at + |term|][0] == term[0];
  }

  /** What occurs at the start of a text occurs in the whole. */
  lemma ContainsInPrefix(text: string, n: nat, term: string)
    requires n <= |text| && Contains(text[..n], term)
    ensures Contains(text, term)
  {
    var at := Find(text[..n], term).value;
    assert text[..n][at..at + |term|] == text[at..at + |term|] == term;
    assert term <= text[at..];
  }

  lemma TitleTermsAreTextTerms(terms: seq<string>, title: string, content: string, lower: char -> char)
    requires SomeTerm(terms, Lower(title, lower))
    ensures SomeTerm(terms, Lower(title + " " + content, lower))
  {
    var text := Lower(title + " " + content, lower);
    var t :| t in terms && Contains(Lower(title, lower), t);
    assert Lower(title, lower) == text[..|title|];
    ContainsInPrefix(text, |title|, t);
  }

  lemma RunesOfTerms(terms: seq<string>, text: string)
    requires "" !in terms && SomeTerm(terms, text)
    ensures SomeRune(terms, text)
  {
    var t :| t in terms && Contains(text, t);
    OccurrenceSharesRune(text, t);
  }

  /** A document scores exactly when one of the query's terms occurs in its title or content or, for a
      query of a single term and in embedding mode, when it shares a rune with a term. */
  lemma ScoresIff(terms: seq<string>, mode: string, title: string, content: string, lower: char -> char)
    requires "" !in terms
    ensures var text := Lower(title + " " + content, lower);
            (Score(terms, mode, title, content, lower) > 0
             <==> SomeTerm(terms, text) || ((|terms| == 1 || mode == MODE_EMBEDDING) && SomeRune(terms, text)))
  {
    var text := Lower(title + " " + content, lower);
    TermHitsPositiveIff(terms, text);
    AllRuneHitsPositiveIff(terms, text);
    if |terms| == 1 {
      assert terms == [terms[0]];
      RuneHitsPositiveIff(terms[0], text);
    }
    TermHitsPositiveIff(terms, Lower(title, lower));
    if SomeTerm(terms, Lower(title, lower)) { TitleTermsAreTextTerms(terms, title, content, lower); }
    if SomeTerm(terms, text) { RunesOfTerms(terms, text); }
  }
}
