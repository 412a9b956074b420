/**
 * The name filter of the event-socket resolver: the regular expression `machine_events.*\.sock`
 * compiled with Go's `regexp` package and applied with `MatchString`. The expression is not
 * anchored, so it matches a name that CONTAINS `machine_events`, followed (possibly much later) by
 * `.sock`; in Go's syntax `.` matches any character except a newline, so no newline may stand
 * between the two literals.
 */
module SockPattern {

  const Prefix: string := "machine_events"
  const Suffix: string := ".sock"

  /** `name[i..]` starts with `Prefix`, `name[j..]` starts with `Suffix`, and `.*` covers the gap. */
  ghost predicate MatchAt(name: string, i: int, j: int) {
    && 0 <= i
    && i + |Prefix| <= j
    && j + |Suffix| <= |name|
    && name[i..i + |Prefix|] == Prefix
    && name[j..j + |Suffix|] == Suffix
    && '\n' !in name[i + |Prefix|..j]
  }

  /** What `regexp.MustCompile(`machine_events.*\.sock`).MatchString(name)` decides. */
  ghost predicate PatternMatches(name: string) {
    exists i, j :: MatchAt(name, i, j)
  }

  /** `t` has `Suffix` at `j`, and the characters before it contain no newline. */
  ghost predicate SuffixAt(t: string, j: int) {
    0 <= j && j + |Suffix| <= |t| && t[j..j + |Suffix|] == Suffix && '\n' !in t[..j]
  }

  /** Scans `t` for `Suffix`, giving up at the first newline: the `.*\.sock` tail of the pattern. */
  function SuffixBeforeNewline(t: string): bool
    decreases |t|
  {
    if |t| < |Suffix| then false
    else if t[..|Suffix|] == Suffix then true
    else if t[0] == '\n' then false
    else SuffixBeforeNewline(t[1..])
  }

  /** The pattern matcher: tries every start position of `Prefix`, leftmost first. */
  function MatchString(name: string): bool
    decreases |name|
  {
    if |name| < |Prefix| then false
    else (name[..|Prefix|] == Prefix && SuffixBeforeNewline(name[|Prefix|..])) || MatchString(name[1..])
  }

  /** When the scanner succeeds, `Suffix` occurs at some `k` with no newline before it. */
  lemma {:induction false} SuffixFound(t: string) returns (k: int)
    requires SuffixBeforeNewline(t)
    ensures SuffixAt(t, k)
    decreases |t|
  {
    if t[..|Suffix|] == Suffix {
      k := 0;
    } else {
      var u := t[1..];
      var m := SuffixFound(u);
      k := m + 1;
      assert t[k..k + |Suffix|] == u[m..m + |Suffix|];
      assert t[..k] == [t[0]] + u[..m];
    }
  }

  /** Every occurrence of `Suffix` with no newline before it is found by the scanner. */
  lemma {:induction false} SuffixFoundAll(t: string, j: int)
    requires SuffixAt(t, j)
    ensures SuffixBeforeNewline(t)
    decreases j
  {
    if t[..|Suffix|] != Suffix {
      assert t[0..|Suffix|] == t[..|Suffix|];
      var u := t[1..];
      assert t[..j][0] == t[0];
      assert u[j - 1..j - 1 + |Suffix|] == t[j..j + |Suffix|];
      assert u[..j - 1] == t[..j][1..];
      SuffixFoundAll(u, j - 1);
    }
  }

  /** A match whose `Prefix` starts at 0 is a `Prefix` followed by a `SuffixAt` match. */
  lemma MatchAtStart(name: string, j: int)
    requires |Prefix| <= |name|
    ensures MatchAt(name, 0, j) <==> name[..|Prefix|] == Prefix && SuffixAt(name[|Prefix|..], j - |Prefix|)
  {
    var t := name[|Prefix|..];
    if |Prefix| <= j <= |name| - |Suffix| {
      assert name[j..j + |Suffix|] == t[j - |Prefix|..j - |Prefix| + |Suffix|];
      assert name[|Prefix|..j] == t[..j - |Prefix|];
      assert name[0..|Prefix|] == name[..|Prefix|];
    }
  }

  lemma TailSlice(name: string, a: int, b: int)
    requires 1 <= a <= b <= |name|
    ensures name[a..b] == name[1..][a - 1..b - 1]
  {
  }

  /** A match that does not start at 0 is a match of the name without its first character. */
  lemma MatchAtShift(name: string, i: int, j: int)
    requires |name| > 0 && i >= 1
    ensures MatchAt(name, i, j) <==> MatchAt(name[1..], i - 1, j - 1)
  {
    if i + |Prefix| <= j && j + |Suffix| <= |name| {
      TailSlice(name, i, i + |Prefix|);
      TailSlice(name, j, j + |Suffix|);
      TailSlice(name, i + |Prefix|, j);
    }
  }

  /** When the scanner succeeds, the pattern matches at some `i`, `j`. */
  lemma {:induction false} MatchFound(name: string) returns (i: int, j: int)
    requires MatchString(name)
    ensures MatchAt(name, i, j)
    decreases |name|
  {
    var t := name[|Prefix|..];
    if name[..|Prefix|] == Prefix && SuffixBeforeNewline(t) {
      var k := SuffixFound(t);
      i, j := 0, k + |Prefix|;
      MatchAtStart(name, j);
    } else {
      var u := name[1..];
      var i', j' := MatchFound(u);
      i, j := i' + 1, j' + 1;
      MatchAtShift(name, i, j);
    }
  }

  /** Every match of the pattern, at whatever position, is found by the scanner. */
  lemma {:induction false} MatchFoundAll(name: string, i: int, j: int)
    requires MatchAt(name, i, j)
    ensures MatchString(name)
    decreases i
  {
    if i == 0 {
      MatchAtStart(name, j);
      SuffixFoundAll(name[|Prefix|..], j - |Prefix|);
    } else {
      MatchAtShift(name, i, j);
      MatchFoundAll(name[1..], i - 1, j - 1);
    }
  }

  /** The scanner decides exactly the unanchored pattern. */
  lemma MatchStringCorrect(name: string)
    ensures MatchString(name) <==> PatternMatches(name)
  {
    if MatchString(name) {
      var i, j := MatchFound(name);
    }
    if i, j :| MatchAt(name, i, j) {
      MatchFoundAll(name, i, j);
    }
  }

  /**
   * The pattern is not anchored: any text may precede `machine_events` and follow `.sock`, and any
   * newline-free text may separate them.
   */
  lemma UnanchoredMatch(before: string, middle: string, after: string)
    requires '\n' !in middle
    ensures MatchString(before + Prefix + middle + Suffix + after)
  {
    var name := before + Prefix + middle + Suffix + after;
    var i, j := |before|, |before| + |Prefix| + |middle|;
    assert name[i..i + |Prefix|] == Prefix;
    assert name[j..j + |Suffix|] == Suffix;
    assert name[i + |Prefix|..j] == middle;
    assert MatchAt(name, i, j);
    MatchStringCorrect(name);
  }
}
