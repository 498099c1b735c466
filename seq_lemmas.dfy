/** Facts about sequence concatenation, stated once for any element type. */
module SeqLemmas {
  lemma SplitLast<T>(a: seq<T>, b: seq<T>)
    requires |b| > 0
    ensures a + b == (a + b[..|b| - 1]) + [b[|b| - 1]]
    ensures b == b[..|b| - 1] + [b[|b| - 1]]
  {
  }

  lemma ConcatAssoc<T>(p: seq<T>, q: seq<T>, x: seq<T>)
    ensures (p + q) + x == p + (q + x)
  {
  }

  lemma PrefixSnoc<T>(s: seq<T>, i: int)
    requires 0 <= i < |s|
    ensures s[..i + 1] == s[..i] + [s[i]]
  {
  }
}
