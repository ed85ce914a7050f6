/** String helpers shared by the condition dispatch, the lead-time parser and the settings. */
module Strings {

  /** Python's `s.startswith(prefix)`. */
  predicate StartsWith(s: string, prefix: string) {
    |prefix| <= |s| && s[..|prefix|] == prefix
  }

  /** The window of `s` starting at `k` spells `sub`. */
  predicate WindowAt(s: string, sub: string, k: nat) {
    k + |sub| <= |s| && s[k..k + |sub|] == sub
  }

  /** Python's `sub in s`: some window of `s` equals `sub`. */
  predicate Contains(s: string, sub: string) {
    exists k: nat :: k <= |s| && WindowAt(s, sub, k)
  }

  /** A string that differs from `prefix` at position `j` (or ends before it) does not start with it. */
  lemma NotStartsWithAt(s: string, prefix: string, j: nat)
    requires j < |prefix| && (j >= |s| || s[j] != prefix[j])
    ensures !StartsWith(s, prefix)
  {
  }
}
