/** Order-preserving filtering, the shape shared by every loop of the core that appends to a slice. */
module Seqs {

  /** The elements of `s` for which `keep` holds, in their order in `s`. */
  function Filter<T>(s: seq<T>, keep: T -> bool): (r: seq<T>)
    ensures |r| <= |s|
    decreases |s|
  {
    if s == [] then []
    else
      var init, last := s[..|s| - 1], s[|s| - 1];
      Filter(init, keep) + (if keep(last) then [last] else [])
  }

  /** Nothing that `keep` accepts is dropped, and nothing it rejects is kept. */
  lemma {:induction false} FilterMember<T>(s: seq<T>, keep: T -> bool, x: T)
    ensures x in Filter(s, keep) <==> x in s && keep(x)
    decreases |s|
  {
    if s != [] {
      var init := s[..|s| - 1];
      FilterMember(init, keep, x);
      assert s == init + [s[|s| - 1]];
    }
  }

  /** Filtering distributes over concatenation: the kept elements keep their relative order. */
  lemma {:induction false} FilterAppend<T>(a: seq<T>, b: seq<T>, keep: T -> bool)
    ensures Filter(a + b, keep) == Filter(a, keep) + Filter(b, keep)
    decreases |b|
  {
    if b == [] {
      assert a + b == a;
    } else {
      var ab, binit, last := a + b, b[..|b| - 1], b[|b| - 1];
      var tail := if keep(last) then [last] else [];
      assert ab[..|ab| - 1] == a + binit;
      assert ab[|ab| - 1] == last;
      FilterAppend(a, binit, keep);
      calc {
        Filter(ab, keep);
        Filter(a + binit, keep) + tail;
        (Filter(a, keep) + Filter(binit, keep)) + tail;
        Filter(a, keep) + (Filter(binit, keep) + tail);
        Filter(a, keep) + Filter(b, keep);
      }
    }
  }

  /** The filter drops nothing exactly when every element is accepted. */
  lemma {:induction false} FilterKeepsAll<T>(s: seq<T>, keep: T -> bool)
    ensures Filter(s, keep) == s <==> forall i :: 0 <= i < |s| ==> keep(s[i])
    decreases |s|
  {
    if s != [] {
      var init := s[..|s| - 1];
      FilterKeepsAll(init, keep);
      if !keep(s[|s| - 1]) {
        assert |Filter(s, keep)| < |s|;
      }
    }
  }
}
