/**
 The strings of C.
 */
module CStrings {
  // A string in memory, with the null character that ends it.
  ghost predicate IsCString(s: string) {
    s != "" && s[|s| - 1] == '\0' && forall i | 0 <= i < |s| - 1 :: s[i] != '\0'
  }

  ghost function Text(s: string): string
    requires IsCString(s)
  {
    s[..|s| - 1]
  }

  // Only the null character ends it.
  lemma Read(s: string, i: nat)
    requires IsCString(s) && i <= |Text(s)|
    ensures i < |s| && (s[i] == '\0' <==> i == |Text(s)|) && (i < |Text(s)| ==> s[i] == Text(s)[i])
  {
  }
}
