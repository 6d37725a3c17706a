/** Prefix and suffix tests on strings, and how they behave under concatenation. */
module Strings {
  predicate StartsWith(s: string, p: string) {
    |p| <= |s| && s[..|p|] == p
  }

  predicate EndsWith(s: string, q: string) {
    |q| <= |s| && s[|s| - |q|..] == q
  }

  lemma Leads(m: string, b: string)
    ensures StartsWith(m + b, m)
  {
  }

  lemma Trails(a: string, q: string)
    ensures EndsWith(a + q, q)
  {
  }

  lemma ShorterPrefix(s: string, p: string, q: string)
    requires StartsWith(s, p + q)
    ensures StartsWith(s, p)
  {
    assert (p + q)[..|p|] == p;
  }
}
