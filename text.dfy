/** Facts about strings shared by the rewriting stages. */
module Text {
  /** `s` has no two adjacent occurrences of `c`: it contains no "cc". */
  predicate NoRun(c: char, s: string) {
    forall i :: 0 <= i < |s| - 1 ==> s[i] != c || s[i + 1] != c
  }

  /** A contiguous piece of a run-free string is run-free. */
  lemma NoRunSlice(c: char, s: string, i: nat, j: nat)
    requires NoRun(c, s) && i <= j <= |s|
    ensures NoRun(c, s[i..j])
  {
    forall k | 0 <= k < j - i - 1
      ensures s[i..j][k] != c || s[i..j][k + 1] != c
    {
      assert s[i..j][k] == s[i + k] && s[i..j][k + 1] == s[i + k + 1];
    }
  }

  /** A prefix of a prefix is a prefix. */
  lemma PrefixOfPrefix(s: string, i: nat, j: nat)
    requires j <= i <= |s|
    ensures s[..i][..j] == s[..j]
  {
    assert forall k :: 0 <= k < j ==> s[..i][..j][k] == s[k];
  }
}
