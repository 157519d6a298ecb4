/** The snippet shown for a search hit: a window of runes around the first occurrence of the query,
    found by byte offset in the lower-cased content. */
module Snippet {
  import opened Options
  import opened Text

  /** The first rune of `s` that starts at byte `pos` or later; 0 if none does. */
  function RuneFrom(s: string, pos: nat, n: nat): nat
    requires n <= |s|
    decreases |s| - n
  {
    if n == |s| then 0 else if Offset(s, n) >= pos then n else RuneFrom(s, pos, n + 1)
  }

  function Start(rune: nat, maxRunes: nat): nat {
    if rune > maxRunes / 3 then rune - maxRunes / 3 else rune
  }

  function Min(a: nat, b: nat): nat {
    if a <= b then a else b
  }

  function Cut(text: string, start: nat, maxRunes: nat): string
    requires start <= |text|
  {
    text[start..Min(start + maxRunes, |text|)]
  }

  /** The byte position of the key in the lower-cased text, as strings.Index reports it. */
  function KeyPosition(text: string, key: string, lower: char -> char): Option<nat> {
    var low := Lower(text, lower);
    var found := Find(low, key);
    if found.None? then None else Some(Offset(low, found.value))
  }

  /** The window of a trimmed text for a lower-cased key. */
  function Window(text: string, key: string, maxRunes: nat, lower: char -> char): string {
    if |text| <= maxRunes then text
    else
      var pos := KeyPosition(text, key, lower);
      if pos.None? then text[..maxRunes]
      else
        RuneFromIsInside(text, pos.value, 0);
        var start := Start(RuneFrom(text, pos.value, 0), maxRunes);
        Cut(text, start, maxRunes)
  }

  function Excerpt(content: string, query: string, maxRunes: nat, lower: char -> char): string {
    Window(TrimSpace(content), Lower(TrimSpace(query), lower), maxRunes, lower)
  }

  lemma {:induction false} RuneFromIsInside(s: string, pos: nat, n: nat)
    requires n <= |s|
    ensures RuneFrom(s, pos, n) < |s| || RuneFrom(s, pos, n) == 0
    decreases |s| - n
  {
    if n < |s| { RuneFromIsInside(s, pos, n + 1); }
  }

  lemma LandedWindow(text: string, key: string, maxRunes: nat, lower: char -> char, pos: nat)
    requires |text| > maxRunes && KeyPosition(text, key, lower) == Some(pos)
    ensures var start := Start(RuneFrom(text, pos, 0), maxRunes);
            start <= |text| && Window(text, key, maxRunes, lower) == Cut(text, start, maxRunes)
  {
    RuneFromIsInside(text, pos, 0);
  }

  method Snippet(content: string, query: string, maxRunes: nat, lower: char -> char) returns (out: string)
    ensures out == Excerpt(content, query, maxRunes, lower)
  {
    var text := TrimSpace(content);
    if text == "" {
      return "";
    }
    out := Show(text, Lower(TrimSpace(query), lower), maxRunes, lower);
  }

  method Show(text: string, key: string, maxRunes: nat, lower: char -> char) returns (out: string)
    ensures out == Window(text, key, maxRunes, lower)
  {
    if |text| <= maxRunes {
      return text;
    }
    var pos := KeyPosition(text, key, lower);
    if pos.None? {
      return text[..maxRunes];
    }
    var start := FirstRuneFrom(text, pos.value);
    ghost var first := start;
    LandedWindow(text, key, maxRunes, lower, pos.value);
    if start > maxRunes / 3 {
      start := start - maxRunes / 3;
    }
    var end := start + maxRunes;
    if end > |text| {
      end := |text|;
    }
    assert start == Start(first, maxRunes) && end == Min(start + maxRunes, |text|);
    assert text[start..end] == Cut(text, start, maxRunes);
    return text[start..end];
  }

  method FirstRuneFrom(text: string, pos: nat) returns (start: nat)
    ensures start == RuneFrom(text, pos, 0)
  {
    start := 0;
    var count, offset := 0, 0;
    while count < |text|
      invariant count <= |text| && offset == Offset(text, count) && start == 0
      invariant RuneFrom(text, pos, count) == RuneFrom(text, pos, 0)
      decreases |text| - count
    {
      if offset >= pos {
        return count;
      }
      offset := offset + Width(text[count]);
      count := count + 1;
    }
  }

  predicate IsWindow(text: string, start: nat, out: string) {
    start + |out| <= |text| && text[start..start + |out|] == out
  }

  lemma WindowIsWindow(text: string, key: string, maxRunes: nat, lower: char -> char)
    ensures var out := Window(text, key, maxRunes, lower);
            |out| <= maxRunes && (exists start :: IsWindow(text, start, out)) && (|text| <= maxRunes ==> out == text)
  {
    var out := Window(text, key, maxRunes, lower);
    var pos := KeyPosition(text, key, lower);
    if |text| <= maxRunes || pos.None? {
      assert IsWindow(text, 0, out);
    } else {
      RuneFromIsInside(text, pos.value, 0);
      assert IsWindow(text, Start(RuneFrom(text, pos.value, 0), maxRunes), out);
    }
  }

  /** Where the query does not occur, the snippet is the start of the content. */
  lemma StartWithoutOccurrence(content: string, query: string, maxRunes: nat, lower: char -> char)
    requires !Contains(Lower(TrimSpace(content), lower), Lower(TrimSpace(query), lower))
    ensures var text := TrimSpace(content);
            Excerpt(content, query, maxRunes, lower) == if |text| <= maxRunes then text else text[..maxRunes]
  {
  }

  /** Every snippet is a contiguous window of the trimmed content of at most `maxRunes` runes, the whole
      of it when it is short enough. */
  lemma ExcerptIsWindow(content: string, query: string, maxRunes: nat, lower: char -> char)
    ensures var text, out := TrimSpace(content), Excerpt(content, query, maxRunes, lower);
            |out| <= maxRunes && (exists start :: IsWindow(text, start, out)) && (|text| <= maxRunes ==> out == text)
  {
    WindowIsWindow(TrimSpace(content), Lower(TrimSpace(query), lower), maxRunes, lower);
  }

  /** Going from rune to byte offset and back is the identity. */
  lemma {:induction false} RuneFromOffset(s: string, p: nat, n: nat)
    requires n <= p < |s|
    ensures RuneFrom(s, Offset(s, p), n) == p
    decreases p - n
  {
    if n < p {
      OffsetStrictlyIncreases(s, n, p);
      RuneFromOffset(s, p, n + 1);
    }
  }

  /** An occurrence in a text that is not empty starts inside it. */
  lemma FoundInside(low: string, key: string, p: nat)
    requires low != "" && Find(low, key) == Some(p)
    ensures p < |low| && p + |key| <= |low| && low[p..p + |key|] == key
  {
    assert low[0..] == low && (key == "" ==> key <= low);
  }

  /** The rune of the text that the byte position of lower-cased rune `p` leads to. */
  function Landing(text: string, lower: char -> char, p: nat): nat
    requires p <= |text|
  {
    RuneFrom(text, Offset(Lower(text, lower), p), 0)
  }

  /** The window of a text too long to show starts a third of the limit before the landing of the first
      occurrence, or at it when there is less text before it. */
  lemma WindowStart(text: string, key: string, maxRunes: nat, lower: char -> char, p: nat)
    requires |text| > maxRunes && Find(Lower(text, lower), key) == Some(p) && p <= |text|
    ensures var start := Start(Landing(text, lower, p), maxRunes);
            start <= |text| && Window(text, key, maxRunes, lower) == Cut(text, start, maxRunes)
  {
    assert KeyPosition(text, key, lower) == Some(Offset(Lower(text, lower), p));
    LandedWindow(text, key, maxRunes, lower, Offset(Lower(text, lower), p));
  }

  /** The first `n` runes keep their byte widths in lower case. */
  predicate KeepsWidths(s: string, lower: char -> char, n: nat)
    requires n <= |s|
  {
    forall i :: 0 <= i < n ==> Width(lower(s[i])) == Width(s[i])
  }

  /** Where the runes before an occurrence keep their widths, its byte position leads back to it. */
  lemma LandingOfKept(text: string, lower: char -> char, p: nat)
    requires p < |text| && KeepsWidths(text, lower, p)
    ensures Landing(text, lower, p) == p
  {
    OffsetByWidths(text, Lower(text, lower), p);
    RuneFromOffset(text, p, 0);
  }

  /** How much of the window is left for the occurrence at rune `p`. */
  function Room(p: nat, maxRunes: nat): nat {
    if p > maxRunes / 3 then maxRunes - maxRunes / 3 else maxRunes
  }

  /** Lower-cased, the text shown holds the key at rune `at`. */
  predicate Holds(out: string, key: string, lower: char -> char, at: nat) {
    at + |key| <= |out| && Lower(out, lower)[at..at + |key|] == key
  }

  /** A window starting at rune `start` of the text holds the key at the text's rune `p`. */
  predicate HoldsFrom(out: string, key: string, lower: char -> char, start: nat, p: nat) {
    start <= p && Holds(out, key, lower, p - start)
  }

  lemma PartHoldsIff(text: string, key: string, lower: char -> char, start: nat, end: nat, p: nat)
    requires start <= p && start <= end <= |text| && p + |key| <= |text| && Lower(text, lower)[p..p + |key|] == key
    ensures Holds(text[start..end], key, lower, p - start) <==> p + |key| <= end
  {
    if p + |key| <= end {
      assert Lower(text[start..end], lower)[p - start..p - start + |key|] == Lower(text, lower)[p..p + |key|];
    }
  }

  /** The window begins no later than the occurrence at rune `p` and holds all of it. */
  predicate Shows(text: string, key: string, maxRunes: nat, lower: char -> char, p: nat)
    requires p <= |text|
  {
    HoldsFrom(Window(text, key, maxRunes, lower), key, lower, Start(Landing(text, lower, p), maxRunes), p)
  }

  lemma CutShowsIff(text: string, key: string, maxRunes: nat, lower: char -> char, p: nat, start: nat)
    requires p + |key| <= |text| && Lower(text, lower)[p..p + |key|] == key && start <= |text|
    ensures HoldsFrom(Cut(text, start, maxRunes), key, lower, start, p) <==> start <= p && p + |key| <= start + maxRunes
  {
    if start <= p {
      PartHoldsIff(text, key, lower, start, Min(start + maxRunes, |text|), p);
    }
  }

  /** For every way of lower-casing: the window shows the whole first occurrence exactly when it starts
      no later than the occurrence and reaches to its end. */
  lemma WindowShowsIff(text: string, key: string, maxRunes: nat, lower: char -> char, p: nat)
    requires |text| > maxRunes && Find(Lower(text, lower), key) == Some(p)
    ensures p + |key| <= |text|
    ensures var start := Start(Landing(text, lower, p), maxRunes);
            Shows(text, key, maxRunes, lower, p) <==> start <= p && p + |key| <= start + maxRunes
  {
    FoundInside(Lower(text, lower), key, p);
    WindowStart(text, key, maxRunes, lower, p);
    CutShowsIff(text, key, maxRunes, lower, p, Start(Landing(text, lower, p), maxRunes));
  }

  /** The first occurrence of the query starts at rune `p` of the trimmed content. */
  predicate OccursAt(content: string, query: string, lower: char -> char, p: nat) {
    Find(Lower(TrimSpace(content), lower), Lower(TrimSpace(query), lower)) == Some(p)
  }

  /** The excerpt shows the whole first occurrence. */
  predicate ShowsOccurrence(content: string, query: string, maxRunes: nat, lower: char -> char, p: nat)
    requires p <= |TrimSpace(content)|
  {
    Shows(TrimSpace(content), Lower(TrimSpace(query), lower), maxRunes, lower, p)
  }

  /** The same for content and query as given. */
  lemma ShowsOccurrenceIff(content: string, query: string, maxRunes: nat, lower: char -> char, p: nat)
    requires |TrimSpace(content)| > maxRunes && OccursAt(content, query, lower, p)
    ensures p + |TrimSpace(query)| <= |TrimSpace(content)|
    ensures var start := Start(Landing(TrimSpace(content), lower, p), maxRunes);
            (ShowsOccurrence(content, query, maxRunes, lower, p)
             <==> start <= p && p + |TrimSpace(query)| <= start + maxRunes)
  {
    WindowShowsIff(TrimSpace(content), Lower(TrimSpace(query), lower), maxRunes, lower, p);
  }

  /** Rune `n` is the first to start at the byte position or later, or no rune does and `n` is 0. */
  predicate LandsAt(text: string, pos: nat, n: nat) {
    || (n < |text| && Offset(text, n) >= pos && forall i :: 0 <= i < n ==> Offset(text, i) < pos)
    || (n == 0 && forall i :: 0 <= i < |text| ==> Offset(text, i) < pos)
  }

  lemma {:induction false} RuneFromLands(text: string, pos: nat, n: nat)
    requires n <= |text| && forall i :: 0 <= i < n ==> Offset(text, i) < pos
    ensures LandsAt(text, pos, RuneFrom(text, pos, n))
    decreases |text| - n
  {
    if n < |text| && Offset(text, n) < pos { RuneFromLands(text, pos, n + 1); }
  }

  /** The window from a third of the limit before rune `n`, or from that rune when less precedes it, as far as
      the limit goes. */
  function WindowAround(text: string, n: nat, maxRunes: nat): string
    requires n <= |text|
  {
    var start := if n > maxRunes / 3 then n - maxRunes / 3 else n;
    text[start..if start + maxRunes <= |text| then start + maxRunes else |text|]
  }

  lemma CutIsAround(text: string, n: nat, maxRunes: nat)
    requires n <= |text|
    ensures Start(n, maxRunes) <= |text| && Cut(text, Start(n, maxRunes), maxRunes) == WindowAround(text, n, maxRunes)
  {
  }

  lemma WindowIs(text: string, key: string, maxRunes: nat, lower: char -> char, p: nat) returns (n: nat)
    requires |text| > maxRunes && Find(Lower(text, lower), key) == Some(p)
    ensures p <= |text| && n <= |text| && LandsAt(text, Offset(Lower(text, lower), p), n)
    ensures Window(text, key, maxRunes, lower) == WindowAround(text, n, maxRunes)
  {
    FoundInside(Lower(text, lower), key, p);
    n := Landing(text, lower, p);
    RuneFromLands(text, Offset(Lower(text, lower), p), 0);
    WindowStart(text, key, maxRunes, lower, p);
    CutIsAround(text, n, maxRunes);
  }

  /** The excerpt of a content too long to show is the window around the rune found at the byte position. */
  lemma ExcerptIs(content: string, query: string, maxRunes: nat, lower: char -> char, p: nat) returns (n: nat)
    requires |TrimSpace(content)| > maxRunes && OccursAt(content, query, lower, p)
    ensures var text := TrimSpace(content);
            && p <= |text| && n <= |text| && LandsAt(text, Offset(Lower(text, lower), p), n)
            && Excerpt(content, query, maxRunes, lower) == WindowAround(text, n, maxRunes)
  {
    n := WindowIs(TrimSpace(content), Lower(TrimSpace(query), lower), maxRunes, lower, p);
  }

  /** If the runes before the occurrence keep their byte widths, it is shown exactly when the query is short
      enough: at most the limit, less a third of it when that much text precedes the occurrence. */
  lemma ShortQueryIsShownIff(content: string, query: string, maxRunes: nat, lower: char -> char, p: nat)
    requires |TrimSpace(content)| > maxRunes && OccursAt(content, query, lower, p)
    requires p <= |TrimSpace(content)| && KeepsWidths(TrimSpace(content), lower, p)
    ensures ShowsOccurrence(content, query, maxRunes, lower, p) <==> |TrimSpace(query)| <= Room(p, maxRunes)
  {
    ShowsOccurrenceIff(content, query, maxRunes, lower, p);
    FoundInside(Lower(TrimSpace(content), lower), Lower(TrimSpace(query), lower), p);
    LandingOfKept(TrimSpace(content), lower, p);
  }

  // ----- where widths change ------------------------------------------------

  /** Lower-casing the Kelvin sign shortens it from three bytes to one. */
  function KelvinLower(c: char): char {
    if c == '\U{212A}' then 'k' else c
  }

  /** `n` Kelvin signs and an "x". */
  function Kelvins(n: nat): (s: string)
    ensures |s| == n + 1 && s[n] == 'x' && forall i :: 0 <= i < n ==> s[i] == '\U{212A}'
  {
    if n == 0 then "x" else ['\U{212A}'] + Kelvins(n - 1)
  }

  lemma {:induction false} KelvinOffsets(n: nat, i: nat)
    requires i <= n
    ensures Offset(Kelvins(n), i) == 3 * i && Offset(Lower(Kelvins(n), KelvinLower), i) == i
  {
    if i > 0 { KelvinOffsets(n, i - 1); }
  }

  lemma {:induction false} KelvinLanding(n: nat, i: nat)
    requires 3 * i < n + 3 && i <= n
    ensures 3 * RuneFrom(Kelvins(n), n, i) >= n && 3 * RuneFrom(Kelvins(n), n, i) < n + 3
    decreases n - i
  {
    KelvinOffsets(n, i);
    if 3 * i < n { KelvinLanding(n, i + 1); }
  }

  lemma KelvinsTrim(n: nat)
    ensures TrimSpace(Kelvins(n)) == Kelvins(n) && TrimSpace("x") == "x"
  {
    Trimmed(Kelvins(n));
    Trimmed("x");
  }

  lemma KelvinsHoldX(n: nat)
    ensures Find(Lower(Kelvins(n), KelvinLower), "x") == Some(n)
  {
    var low := Lower(Kelvins(n), KelvinLower);
    assert low[n] == 'x' && "x" <= low[n..];
    var found := Find(low, "x");
    assert found.Some?;
    assert low[found.value] == low[found.value..found.value + 1][0] == 'x';
  }

  lemma KelvinStart(n: nat)
    requires n >= 300
    ensures Start(Landing(Kelvins(n), KelvinLower, n), 220) + 220 <= n
  {
    KelvinOffsets(n, n);
    KelvinLanding(n, 0);
  }

  /** With 300 or more of them the program's snippet of 220 runes misses the query altogether. */
  lemma WidthsMatter(n: nat)
    requires n >= 300
    ensures OccursAt(Kelvins(n), "x", KelvinLower, n)
    ensures 'x' !in Excerpt(Kelvins(n), "x", 220, KelvinLower)
  {
    KelvinsTrim(n);
    KelvinsHoldX(n);
    assert Lower("x", KelvinLower) == "x";
    KelvinStart(n);
    WindowStart(Kelvins(n), "x", 220, KelvinLower, n);
    KelvinSlice(n, Start(Landing(Kelvins(n), KelvinLower, n), 220), 220);
  }

  lemma KelvinSlice(n: nat, start: nat, k: nat)
    requires start + k <= n
    ensures 'x' !in Kelvins(n)[start..Min(start + k, n + 1)]
  {
  }
}
