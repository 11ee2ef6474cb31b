/** Prefix and suffix tests on text, as JavaScript's `startsWith` and `endsWith` make them. */
module Strings {

  predicate StartsWith(s: string, prefix: string) {
    |prefix| <= |s| && s[..|prefix|] == prefix
  }

  predicate EndsWith(s: string, suffix: string) {
    |suffix| <= |s| && s[|s| - |suffix|..] == suffix
  }

  /** A prefix put in front of any text is found again, and removing it gives the text back. */
  lemma StartsWithPrefix(prefix: string, rest: string)
    ensures StartsWith(prefix + rest, prefix)
    ensures (prefix + rest)[|prefix|..] == rest
  {
    assert (prefix + rest)[..|prefix|] == prefix;
  }

  /** A suffix put after any text is found again. */
  lemma EndsWithSuffix(rest: string, suffix: string)
    ensures EndsWith(rest + suffix, suffix)
  {
    assert (rest + suffix)[|rest|..] == suffix;
  }
}
