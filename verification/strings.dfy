/** The string rules the build script relies on: JavaScript's
    `String.prototype.replace` with a string pattern (only the FIRST occurrence
    is replaced), `$`-anchored suffix tests, and the ASCII case folding of a
    regular expression's `i` flag. */
module Strings {
  import opened Wrappers

  /** `pat` occurs in `s` starting at index `i`. */
  predicate OccursAt(s: string, pat: string, i: int) {
    0 <= i && i + |pat| <= |s| && s[i..i + |pat|] == pat
  }

  ghost predicate Contains(s: string, pat: string) {
    exists i :: OccursAt(s, pat, i)
  }

  /** `i` is where `pat` occurs first in `s`. */
  ghost predicate FirstOccurrence(s: string, pat: string, i: int) {
    OccursAt(s, pat, i) && forall j :: 0 <= j < i ==> !OccursAt(s, pat, j)
  }

  /** Left-to-right search for `pat` starting at `from`. */
  function FindFrom(s: string, pat: string, from: nat): (r: Option<nat>)
    ensures r.Some? ==> from <= r.value && OccursAt(s, pat, r.value)
    ensures r.Some? ==> forall j :: from <= j < r.value ==> !OccursAt(s, pat, j)
    ensures r.None? ==> forall j :: from <= j ==> !OccursAt(s, pat, j)
    decreases |s| - from
  {
    if from + |pat| > |s| then None
    else if s[from..from + |pat|] == pat then Some(from)
    else FindFrom(s, pat, from + 1)
  }

  /** `String.prototype.indexOf`: the first occurrence, if any (an empty
      pattern occurs at 0). */
  function IndexOf(s: string, pat: string): (r: Option<nat>)
    ensures r.Some? <==> Contains(s, pat)
    ensures r.Some? ==> FirstOccurrence(s, pat, r.value)
  {
    FindFrom(s, pat, 0)
  }

  /** `s.replace(pat, rep)` with a string pattern: only the first occurrence
      of `pat` is replaced; without an occurrence `s` is returned unchanged.
      (None of the replacement strings the build script uses contains `$`, so
      JavaScript's `$`-substitutions play no part.) */
  function ReplaceFirst(s: string, pat: string, rep: string): (r: string)
    ensures !Contains(s, pat) ==> r == s
    ensures forall i :: FirstOccurrence(s, pat, i) ==> r == s[..i] + rep + s[i + |pat|..]
  {
    match IndexOf(s, pat)
    case None => s
    case Some(i) => s[..i] + rep + s[i + |pat|..]
  }

  /** The `$`-anchored test `/suf$/`. */
  predicate EndsWith(s: string, suf: string) {
    |suf| <= |s| && s[|s| - |suf|..] == suf
  }

  /** Case folding of a JavaScript regular expression with the `i` flag, for
      patterns made of ASCII letters: non-ASCII characters never fold onto
      ASCII ones, so ASCII folding is exact. */
  function LowerAscii(c: char): (r: char)
    ensures 'A' <= c <= 'Z' ==> 'a' <= r <= 'z' && r as int - c as int == 32
    ensures !('A' <= c <= 'Z') ==> r == c
  {
    if 'A' <= c <= 'Z' then (c as int + 32) as char else c
  }

  function Lower(s: string): (r: string)
    ensures |r| == |s|
    ensures forall i :: 0 <= i < |s| ==> r[i] == LowerAscii(s[i])
  {
    seq(|s|, i requires 0 <= i < |s| => LowerAscii(s[i]))
  }

  /** `/suf$/i` for a lower-case `suf`. */
  predicate EndsWithIgnoringCase(s: string, suf: string) {
    EndsWith(Lower(s), suf)
  }

  lemma ConcatAssoc<T>(a: seq<T>, b: seq<T>, c: seq<T>)
    ensures a + (b + c) == (a + b) + c
  {
  }

  // ---------------------------------------------------------------------------
  // Where the first occurrence lies

  /** Two first occurrences are the same occurrence. */
  lemma FirstOccurrenceUnique(s: string, pat: string, i: int, j: int)
    requires FirstOccurrence(s, pat, i) && FirstOccurrence(s, pat, j)
    ensures i == j
  {
  }

  /** An occurrence inside a prefix is an occurrence in the whole string and
      vice versa. */
  lemma OccursInPrefix(a: string, b: string, pat: string, j: int)
    requires 0 <= j && j + |pat| <= |a|
    ensures OccursAt(a + b, pat, j) <==> OccursAt(a, pat, j)
  {
    assert (a + b)[j..j + |pat|] == a[j..j + |pat|];
  }

  /** Appending a character that is not the pattern's last one cannot create
      an occurrence. */
  lemma AppendKeepsAbsent(a: string, c: char, pat: string)
    requires |pat| > 0 && c != pat[|pat| - 1]
    requires !Contains(a, pat)
    ensures !Contains(a + [c], pat)
  {
    forall j ensures !OccursAt(a + [c], pat, j) {
      if 0 <= j && j + |pat| <= |a| {
        OccursInPrefix(a, [c], pat, j);
      } else if 0 <= j && j + |pat| == |a| + 1 {
        assert (a + [c])[j..j + |pat|][|pat| - 1] == c;
      }
    }
  }

  /** A pattern whose character at position `k` does not appear in `s` does
      not occur in `s`. */
  lemma AbsentWithoutChar(s: string, pat: string, k: int)
    requires 0 <= k < |pat| && pat[k] !in s
    ensures !Contains(s, pat)
  {
    forall j ensures !OccursAt(s, pat, j) {
      if 0 <= j && j + |pat| <= |s| {
        assert s[j..j + |pat|][k] == s[j + k];
      }
    }
  }

  /** Gluing two strings without the pattern by a separator the pattern does
      not contain gives a string without the pattern. */
  lemma JoinKeepsAbsent(a: string, c: char, b: string, pat: string)
    requires c !in pat
    requires !Contains(a, pat) && !Contains(b, pat)
    ensures !Contains(a + [c] + b, pat)
  {
    var s := a + [c] + b;
    forall j ensures !OccursAt(s, pat, j) {
      if 0 <= j && j + |pat| <= |a| {
        assert s[j..j + |pat|] == a[j..j + |pat|];
        assert !OccursAt(a, pat, j);
      } else if |a| < j && j + |pat| <= |s| {
        assert s[j..j + |pat|] == b[j - |a| - 1..j - |a| - 1 + |pat|];
        assert !OccursAt(b, pat, j - |a| - 1);
      } else if 0 <= j <= |a| < j + |pat| <= |s| {
        assert s[j..j + |pat|][|a| - j] == c;
        assert pat[|a| - j] in pat;
      }
    }
  }

  /** When `b` starts with the pattern, `a` does not contain it, and the
      pattern's first character never recurs inside it (so two occurrences
      cannot overlap), the first occurrence in `a + b` is where `b` starts. */
  lemma FirstOccurrenceAtJoin(a: string, b: string, pat: string)
    requires |pat| > 0 && OccursAt(b, pat, 0)
    requires !Contains(a, pat)
    requires forall k :: 1 <= k < |pat| ==> pat[k] != pat[0]
    ensures FirstOccurrence(a + b, pat, |a|)
  {
    var s := a + b;
    assert s[|a|..|a| + |pat|] == b[..|pat|];
    forall j | 0 <= j < |a| ensures !OccursAt(s, pat, j) {
      if j + |pat| <= |a| {
        OccursInPrefix(a, b, pat, j);
      } else if j + |pat| <= |s| {
        assert s[j..j + |pat|][|a| - j] == s[|a|] == pat[0];
      }
    }
  }

  /** When `b` starts with the pattern and the pattern's first character does
      not appear in `a`, the first occurrence in `a + b` is where `b` starts. */
  lemma FirstOccurrenceAfterHeadless(a: string, b: string, pat: string)
    requires |pat| > 0 && OccursAt(b, pat, 0) && pat[0] !in a
    ensures FirstOccurrence(a + b, pat, |a|)
  {
    var s := a + b;
    assert s[|a|..|a| + |pat|] == b[..|pat|];
    forall j | 0 <= j < |a| ensures !OccursAt(s, pat, j) {
      if j + |pat| <= |s| {
        assert s[j..j + |pat|][0] == a[j];
      }
    }
  }

  lemma OccursShift(a: string, b: string, pat: string, j: int)
    requires |a| <= j
    ensures OccursAt(a + b, pat, j) <==> OccursAt(b, pat, j - |a|)
  {
    if j + |pat| <= |a + b| {
      assert (a + b)[j..j + |pat|] == b[j - |a|..j - |a| + |pat|];
    }
  }

  /** No occurrence starts inside a prefix that does not contain the pattern
      and ends in a character the pattern does not contain. */
  lemma NoOccurrenceInPrefix(a: string, b: string, pat: string)
    requires |a| > 0 && a[|a| - 1] !in pat
    requires !Contains(a, pat)
    ensures forall j :: 0 <= j < |a| ==> !OccursAt(a + b, pat, j)
  {
    var s := a + b;
    forall j | 0 <= j < |a| ensures !OccursAt(s, pat, j) {
      if j + |pat| <= |a| {
        OccursInPrefix(a, b, pat, j);
      } else if j + |pat| <= |s| {
        assert s[j..j + |pat|][|a| - 1 - j] == a[|a| - 1];
      }
    }
  }

  /** Behind such a prefix the first occurrence (if any) lies in the rest, so
      the replacement happens there. */
  lemma ReplaceFirstBehindPrefix(a: string, b: string, pat: string, rep: string)
    requires |a| > 0 && a[|a| - 1] !in pat
    requires !Contains(a, pat)
    ensures ReplaceFirst(a + b, pat, rep) == a + ReplaceFirst(b, pat, rep)
  {
    NoOccurrenceInPrefix(a, b, pat);
    match IndexOf(b, pat)
    case None =>
      ShiftedAbsent(a, b, pat);
    case Some(i) =>
      ShiftedFirst(a, b, pat, i);
      ReplaceAt(a, b, pat, rep, i);
  }

  lemma ShiftedAbsent(a: string, b: string, pat: string)
    requires forall j :: 0 <= j < |a| ==> !OccursAt(a + b, pat, j)
    requires !Contains(b, pat)
    ensures !Contains(a + b, pat)
  {
    forall j ensures !OccursAt(a + b, pat, j) {
      if |a| <= j {
        OccursShift(a, b, pat, j);
      }
    }
  }

  lemma ShiftedFirst(a: string, b: string, pat: string, i: nat)
    requires forall j :: 0 <= j < |a| ==> !OccursAt(a + b, pat, j)
    requires FirstOccurrence(b, pat, i)
    ensures FirstOccurrence(a + b, pat, |a| + i)
  {
    forall j | |a| <= j < |a| + i ensures !OccursAt(a + b, pat, j) {
      OccursShift(a, b, pat, j);
    }
    OccursShift(a, b, pat, |a| + i);
  }

  lemma ReplaceAt(a: string, b: string, pat: string, rep: string, i: nat)
    requires FirstOccurrence(a + b, pat, |a| + i) && FirstOccurrence(b, pat, i)
    ensures ReplaceFirst(a + b, pat, rep) == a + ReplaceFirst(b, pat, rep)
  {
    var s := a + b;
    var head, tail := b[..i], b[i + |pat|..];
    assert s[..|a| + i] == a + head;
    assert s[|a| + i + |pat|..] == tail;
    assert ReplaceFirst(s, pat, rep) == (a + head) + rep + tail;
    assert ReplaceFirst(b, pat, rep) == head + rep + tail;
    ConcatAssoc(a, head + rep, tail);
    ConcatAssoc(a, head, rep);
  }

  /** An occurrence that does not overlap the last `|suf|` characters leaves
      the suffix in place after a replacement. */
  lemma ReplaceKeepsSuffix(s: string, pat: string, rep: string, i: int, suf: string)
    requires FirstOccurrence(s, pat, i)
    requires EndsWith(s, suf) && i + |pat| <= |s| - |suf|
    ensures EndsWith(ReplaceFirst(s, pat, rep), suf)
  {
    var r := ReplaceFirst(s, pat, rep);
    assert r == s[..i] + rep + s[i + |pat|..];
    assert r[|r| - |suf|..] == s[i + |pat|..][|s| - |suf| - i - |pat|..];
  }

  /** A replacement inserts `rep` in place of `pat`, so the length changes by
      exactly `|rep| - |pat|` when the pattern occurs. */
  lemma ReplaceFirstLength(s: string, pat: string, rep: string)
    requires Contains(s, pat)
    ensures |ReplaceFirst(s, pat, rep)| == |s| - |pat| + |rep|
  {
    var i := IndexOf(s, pat).value;
    assert FirstOccurrence(s, pat, i);
  }
}
