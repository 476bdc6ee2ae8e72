// Prefixes and concatenations that several encoders and readers share.
module Strings {

  predicate StartsWith(s: string, prefix: string) {
    |prefix| <= |s| && s[..|prefix|] == prefix
  }

  lemma Unlike(s: string, prefix: string, i: nat)
    requires i < |s| && i < |prefix| && s[i] != prefix[i]
    ensures !StartsWith(s, prefix)
  {
    if |prefix| <= |s| {
      assert s[..|prefix|][i] == s[i];
    }
  }

  lemma Parts(a: string, b: string)
    ensures (a + b)[..|a|] == a && (a + b)[|a|..] == b && StartsWith(a + b, a)
  {
  }
}
