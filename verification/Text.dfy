/** Strings as the control plane uses them: ordered identifiers, trimmed
    fields, NUL-joined keys and UTF-8 byte offsets.  A Go string that is valid
    UTF-8 is the sequence of its runes, which is Dafny's `string`. */
module Text {
  import opened Options
  import opened Sorting

  // ----- order --------------------------------------------------------------

  /** The order of Go's `<` on strings.  Go compares bytes; on UTF-8 text that is
      the lexicographic order of the code points. */
  predicate Less(a: string, b: string) {
    if |b| == 0 then false
    else if |a| == 0 then true
    else if a[0] != b[0] then a[0] < b[0]
    else Less(a[1..], b[1..])
  }

  lemma {:induction false} LessIrreflexive(a: string)
    ensures !Less(a, a)
  {
    if |a| > 0 { LessIrreflexive(a[1..]); }
  }

  lemma {:induction false} LessTotal(a: string, b: string)
    requires a != b
    ensures Less(a, b) || Less(b, a)
  {
    if |a| > 0 && |b| > 0 && a[0] == b[0] {
      assert a == [a[0]] + a[1..] && b == [b[0]] + b[1..];
      LessTotal(a[1..], b[1..]);
    }
  }

  lemma {:induction false} LessTransitive(a: string, b: string, c: string)
    requires Less(a, b) && Less(b, c)
    ensures Less(a, c)
  {
    if |a| > 0 && a[0] == b[0] && b[0] == c[0] {
      LessTransitive(a[1..], b[1..], c[1..]);
    }
  }

  lemma LessAsymmetric(a: string, b: string)
    requires Less(a, b)
    ensures !Less(b, a)
  {
    if Less(b, a) {
      LessTransitive(a, b, a);
      LessIrreflexive(a);
    }
  }

  /** `Less` as facts about all strings, for the orders built on it. */
  lemma LessIsStrictTotalOrder()
    ensures forall a: string, b: string :: Less(a, b) ==> !Less(b, a)
    ensures forall a: string, b: string :: a != b ==> Less(a, b) || Less(b, a)
    ensures forall a: string, b: string, c: string :: Less(a, b) && Less(b, c) ==> Less(a, c)
  {
    forall a: string, b: string | Less(a, b) ensures !Less(b, a) { LessAsymmetric(a, b); }
    forall a: string, b: string | a != b ensures Less(a, b) || Less(b, a) { LessTotal(a, b); }
    forall a: string, b: string, c: string | Less(a, b) && Less(b, c) ensures Less(a, c) { LessTransitive(a, b, c); }
  }

  /** The order is that of the first difference; a beginning comes before what continues it. */
  lemma {:induction false} LessByFirstDifference(a: string, b: string)
    ensures Less(a, b) <==> exists k :: Differ(a, b, k)
    decreases |a|
  {
    if |b| > 0 && |a| > 0 && a[0] == b[0] {
      LessByFirstDifference(a[1..], b[1..]);
      if k :| Differ(a[1..], b[1..], k) {
        assert forall i :: 0 < i < k + 1 ==> a[i] == a[1..][i - 1] && b[i] == b[1..][i - 1];
        assert Differ(a, b, k + 1);
      }
      if k :| Differ(a, b, k) {
        assert Differ(a[1..], b[1..], k - 1);
      }
    } else if |b| > 0 && (|a| == 0 || a[0] < b[0]) {
      assert Differ(a, b, 0);
    }
  }

  /** `a` and `b` agree on `k` runes; then `a` ends, or has the smaller rune. */
  ghost predicate Differ(a: string, b: string, k: int) {
    0 <= k <= |a| && k < |b| && (forall i :: 0 <= i < k ==> a[i] == b[i]) && (k == |a| || a[k] < b[k])
  }

  // ----- trimming -----------------------------------------------------------

  /** Go's unicode.IsSpace. */
  predicate IsSpace(c: char) {
    var r := c as int;
    || 0x09 <= r <= 0x0D || r == 0x20 || r == 0x85 || r == 0xA0 || r == 0x1680
    || 0x2000 <= r <= 0x200A || r == 0x2028 || r == 0x2029 || r == 0x202F || r == 0x205F || r == 0x3000
  }

  function TrimLeft(s: string): (t: string)
    ensures |t| <= |s|
    ensures t != "" ==> !IsSpace(t[0])
  {
    if s != "" && IsSpace(s[0]) then TrimLeft(s[1..]) else s
  }

  function TrimRight(s: string): (t: string)
    ensures |t| <= |s| && t == s[..|t|]
    ensures t != "" ==> !IsSpace(t[|t| - 1])
  {
    if s != "" && IsSpace(s[|s| - 1]) then TrimRight(s[..|s| - 1]) else s
  }

  /** Go's strings.TrimSpace. */
  function TrimSpace(s: string): (t: string)
    ensures |t| <= |s|
    ensures t != "" ==> !IsSpace(t[0]) && !IsSpace(t[|t| - 1])
  {
    TrimRight(TrimLeft(s))
  }

  /** A string that neither starts nor ends with white space is trimmed already. */
  lemma Trimmed(s: string)
    requires s == "" || (!IsSpace(s[0]) && !IsSpace(s[|s| - 1]))
    ensures TrimSpace(s) == s
  {
    assert TrimLeft(s) == s && TrimRight(s) == s;
  }

  ghost predicate AllSpace(s: string) {
    forall i :: 0 <= i < |s| ==> IsSpace(s[i])
  }

  /** Trimming takes white space off both ends and nothing else. */
  lemma TrimSpaceSplits(s: string)
    ensures exists n: nat, m: nat :: n <= m <= |s| && AllSpace(s[..n]) && TrimSpace(s) == s[n..m] && AllSpace(s[m..])
  {
    TrimLeftSplits(s);
    var left := TrimLeft(s);
    var n := |s| - |left|;
    TrimRightSplits(left);
    var m := n + |TrimRight(left)|;
    assert s[n..m] == left[..m - n] && s[m..] == left[m - n..];
  }

  lemma {:induction false} TrimLeftSplits(s: string)
    ensures TrimLeft(s) == s[|s| - |TrimLeft(s)|..] && AllSpace(s[..|s| - |TrimLeft(s)|])
  {
    if s != "" && IsSpace(s[0]) {
      TrimLeftSplits(s[1..]);
      var n := |s| - |TrimLeft(s)|;
      assert s[..n] == [s[0]] + s[1..][..n - 1];
    }
  }

  lemma {:induction false} TrimRightSplits(s: string)
    ensures AllSpace(s[|TrimRight(s)|..])
  {
    if s != "" && IsSpace(s[|s| - 1]) {
      var init := s[..|s| - 1];
      TrimRightSplits(init);
      assert s[|TrimRight(init)|..] == init[|TrimRight(init)|..] + [s[|s| - 1]];
    }
  }

  lemma TrimSpaceIdempotent(s: string)
    ensures TrimSpace(TrimSpace(s)) == TrimSpace(s)
  {
    Trimmed(TrimSpace(s));
  }

  /** Go's strings.ToLower, which maps rune by rune; `lower` is unicode.ToLower. */
  function Lower(s: string, lower: char -> char): (t: string)
    ensures |t| == |s| && forall i :: 0 <= i < |s| ==> t[i] == lower(s[i])
  {
    seq(|s|, i requires 0 <= i < |s| => lower(s[i]))
  }

  /** The first non-empty string, or the empty one. */
  function FirstNonEmpty(a: string, b: string): string {
    if a != "" then a else b
  }

  // ----- searching ----------------------------------------------------------

  /** The rune index of the first occurrence of `part`, as Go's strings.Index counted in runes. */
  function Find(s: string, part: string): (r: Option<nat>)
    ensures r.Some? ==> r.value + |part| <= |s| && s[r.value..r.value + |part|] == part
    ensures r.Some? ==> forall i :: 0 <= i < r.value ==> !(part <= s[i..])
    ensures r.None? ==> forall i :: 0 <= i <= |s| ==> !(part <= s[i..])
    decreases |s|
  {
    if part <= s then Some(0)
    else if s == "" then None
    else
      var rest := Find(s[1..], part);
      assert forall i :: 0 < i <= |s| ==> s[i..] == s[1..][i - 1..];
      if rest.None? then None else Some(rest.value + 1)
  }

  /** Go's strings.Contains. */
  predicate Contains(s: string, part: string) {
    Find(s, part).Some?
  }

  // ----- lists without repetitions ------------------------------------------

  /** The values without the empty one and without repetitions, first occurrences kept. */
  function Distinct(values: seq<string>): seq<string> {
    if values == [] then []
    else
      var before := Distinct(values[..|values| - 1]);
      var value := values[|values| - 1];
      if value == "" || value in before then before else before + [value]
  }

  lemma {:induction false} DistinctHolds(values: seq<string>)
    ensures NoRepeats(Distinct(values)) && forall s :: s in Distinct(values) <==> s in values && s != ""
  {
    if values != [] {
      var init, last := values[..|values| - 1], values[|values| - 1];
      assert values == init + [last];
      DistinctHolds(init);
      if last != "" && last !in Distinct(init) { AppendNoRepeats(Distinct(init), last); }
    }
  }

  // ----- NUL-joined keys ----------------------------------------------------

  predicate NulFree(s: string) {
    forall i :: 0 <= i < |s| ==> s[i] != '\0'
  }

  function Join2(a: string, b: string): string { a + "\0" + b }

  function Join3(a: string, b: string, c: string): string { Join2(a, Join2(b, c)) }

  /** A NUL-free head can be read back from a joined key. */
  lemma {:induction false} Join2Injective(a: string, b: string, a': string, b': string)
    requires NulFree(a) && NulFree(a')
    requires Join2(a, b) == Join2(a', b')
    ensures a == a' && b == b'
  {
    var k, k' := Join2(a, b), Join2(a', b');
    assert k[|a|] == '\0' && k'[|a'|] == '\0';
    if |a| == |a'| {
      assert a == k[..|a|] == a';
      assert b == k[|a| + 1..] == b';
    }
  }

  lemma Join3Injective(a: string, b: string, c: string, a': string, b': string, c': string)
    requires NulFree(a) && NulFree(a') && NulFree(b) && NulFree(b')
    requires Join3(a, b, c) == Join3(a', b', c')
    ensures a == a' && b == b' && c == c'
  {
    Join2Injective(a, Join2(b, c), a', Join2(b', c'));
    Join2Injective(b, c, b', c');
  }

  // ----- UTF-8 --------------------------------------------------------------

  /** The number of bytes Go stores for a rune. */
  function Width(c: char): (w: nat)
    ensures 1 <= w <= 4
  {
    var r := c as int;
    if r < 0x80 then 1 else if r < 0x800 then 2 else if r < 0x10000 then 3 else 4
  }

  /** The byte offset at which rune number `n` of `s` starts. */
  function Offset(s: string, n: nat): (b: nat)
    requires n <= |s|
    ensures n <= b
  {
    if n == 0 then 0 else Offset(s, n - 1) + Width(s[n - 1])
  }

  lemma {:induction false} OffsetStrictlyIncreases(s: string, m: nat, n: nat)
    requires m < n <= |s|
    ensures Offset(s, m) < Offset(s, n)
  {
    if m < n - 1 { OffsetStrictlyIncreases(s, m, n - 1); }
  }

  /** Offsets depend on the widths of the runes before them only. */
  lemma {:induction false} OffsetByWidths(s: string, t: string, n: nat)
    requires n <= |s| && n <= |t|
    requires forall i :: 0 <= i < n ==> Width(s[i]) == Width(t[i])
    ensures Offset(s, n) == Offset(t, n)
  {
    if n > 0 { OffsetByWidths(s, t, n - 1); }
  }
}
