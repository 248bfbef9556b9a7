/** PHP's `ltrim`, `rtrim` and `trim`. */
module Trims {
  /** The characters `trim` strips when no list is given: space, tab, line feed, carriage return, NUL and vertical tab. */
  const Whitespace: set<char> := {' ', '\t', '\n', '\r', '\0', '\U{000B}'}

  /** `ltrim($s, $cs)`: the suffix left after dropping the longest prefix made of characters of `cs`. */
  function TrimLeft(s: string, cs: set<char>): (r: string)
    ensures |r| <= |s| && r == s[|s| - |r|..]
    ensures forall i :: 0 <= i < |s| - |r| ==> s[i] in cs
    ensures r != [] ==> r[0] !in cs
  {
    if s != [] && s[0] in cs then TrimLeft(s[1..], cs) else s
  }

  /** `rtrim($s, $cs)`: the prefix left after dropping the longest suffix made of characters of `cs`. */
  function TrimRight(s: string, cs: set<char>): (r: string)
    ensures |r| <= |s| && r == s[..|r|]
    ensures forall i :: |r| <= i < |s| ==> s[i] in cs
    ensures r != [] ==> r[|r| - 1] !in cs
  {
    if s != [] && s[|s| - 1] in cs then TrimRight(s[..|s| - 1], cs) else s
  }

  /** `ltrim` stops at the first character outside the list. */
  lemma TrimLeftStops(s: string, cs: set<char>)
    requires s == [] || s[0] !in cs
    ensures TrimLeft(s, cs) == s
  {
  }

  /** `rtrim` stops at the last character outside the list. */
  lemma TrimRightStops(s: string, cs: set<char>)
    requires s == [] || s[|s| - 1] !in cs
    ensures TrimRight(s, cs) == s
  {
  }

  /** `ltrim` drops a first character of the list. */
  lemma TrimLeftStep(s: string, cs: set<char>)
    requires s != [] && s[0] in cs
    ensures TrimLeft(s, cs) == TrimLeft(s[1..], cs)
  {
  }

  /** `rtrim` drops a last character of the list. */
  lemma TrimRightStep(s: string, cs: set<char>)
    requires s != [] && s[|s| - 1] in cs
    ensures TrimRight(s, cs) == TrimRight(s[..|s| - 1], cs)
  {
  }

  /** `trim($s)`: whitespace dropped at both ends; a string without whitespace is unchanged. */
  function Trim(s: string): (r: string)
    ensures r != [] ==> r[0] !in Whitespace && r[|r| - 1] !in Whitespace
    ensures (forall i :: 0 <= i < |s| ==> s[i] !in Whitespace) ==> r == s
    ensures exists i, j ::
      (0 <= i <= j <= |s| && r == s[i..j]
       && (forall k :: 0 <= k < i ==> s[k] in Whitespace)
       && (forall k :: j <= k < |s| ==> s[k] in Whitespace))
  {
    var l := TrimLeft(s, Whitespace);
    var r := TrimRight(l, Whitespace);
    var i := |s| - |l|;
    var j := i + |r|;
    assert r == s[i..j];
    assert forall k :: j <= k < |s| ==> s[k] == l[k - i];
    assert (forall k :: 0 <= k < |s| ==> s[k] !in Whitespace) ==> i == 0 && l == s && r == l;
    r
  }

  /** `trim` of a string with one leading whitespace character and none elsewhere at its ends drops just that one. */
  lemma TrimOneLeading(s: string)
    requires s != [] && s[0] in Whitespace
    requires |s| > 1 ==> s[1] !in Whitespace && s[|s| - 1] !in Whitespace
    ensures Trim(s) == s[1..]
  {
    TrimLeftStep(s, Whitespace);
    TrimLeftStops(s[1..], Whitespace);
    TrimRightStops(s[1..], Whitespace);
  }
}
