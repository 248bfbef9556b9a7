/**
 * PHP's `strtr($string, $pairs)` with an array of replacement pairs. The string is
 * scanned from left to right; at each position the LONGEST key of the array that
 * starts there is replaced by its value and the scan continues after that key, so
 * replaced text is never searched again; where no key starts, the character is
 * copied. An empty key never matches.
 */
module Strtr {
  import opened Text

  /** A PHP array of replacement pairs: its keys are unique, their order is irrelevant. */
  type Table = map<string, string>

  /** Length of the longest non-empty key of `t` that is a prefix of `s` and at most `n` long; 0 when there is none. */
  function MatchLen(t: Table, s: string, n: nat): (r: nat)
    requires n <= |s|
    ensures r <= n
    ensures r > 0 ==> s[..r] in t
    ensures forall m :: r < m <= n ==> s[..m] !in t
    decreases n
  {
    if n == 0 then 0 else if s[..n] in t then n else MatchLen(t, s, n - 1)
  }

  /** `strtr($s, $t)`. */
  function Translate(t: Table, s: string): string
    decreases |s|
  {
    if s == [] then []
    else
      var n := MatchLen(t, s, |s|);
      if n > 0 then t[s[..n]] + Translate(t, s[n..])
      else [s[0]] + Translate(t, s[1..])
  }

  /** At a position where key `k` starts and no longer key does, `k` is replaced by its value. */
  lemma ReplacesLongestKey(t: Table, s: string, k: string)
    requires k in t && k != [] && k <= s
    requires forall k' :: k' in t && k' <= s ==> |k'| <= |k|
    ensures Translate(t, s) == t[k] + Translate(t, s[|k|..])
  {
    assert s[..|k|] == k;
    assert forall m :: 0 < m <= |s| ==> s[..m] <= s;
  }

  /** No key of `t` is longer than `n`. */
  predicate KeysAtMost(t: Table, n: nat) {
    forall k :: k in t ==> |k| <= n
  }

  /**
   * The same, for a table whose keys are at most `n` long: only the lengths between `|k|` and
   * `n` need checking.
   */
  lemma ReplacesKeyUpTo(t: Table, s: string, k: string, n: nat)
    requires KeysAtMost(t, n)
    requires k in t && k != [] && k <= s
    requires forall m :: |k| < m <= n && m <= |s| ==> s[..m] !in t
    ensures Translate(t, s) == t[k] + Translate(t, s[|k|..])
  {
    forall k' | k' in t && k' <= s
      ensures |k'| <= |k|
    {
      assert s[..|k'|] == k';
    }
    ReplacesLongestKey(t, s, k);
  }

  /** The same, for a key followed by the rest of the string. */
  lemma ReplacesKeyBefore(t: Table, k: string, rest: string, n: nat)
    requires KeysAtMost(t, n)
    requires k in t && k != []
    requires forall m :: |k| < m <= n && m <= |k + rest| ==> (k + rest)[..m] !in t
    ensures Translate(t, k + rest) == t[k] + Translate(t, rest)
  {
    var s := k + rest;
    assert k <= s && s[|k|..] == rest;
    ReplacesKeyUpTo(t, s, k, n);
  }

  /**
   * A one-character key whose longer keys all continue with `d` is replaced wherever `d` does
   * not follow it.
   */
  lemma SingleKeyBefore(t: Table, c: char, d: char, rest: string)
    requires [c] in t
    requires forall k :: k in t && |k| > 1 && k[0] == c ==> k[1] == d
    requires rest == [] || rest[0] != d
    ensures Translate(t, [c] + rest) == t[[c]] + Translate(t, rest)
  {
    var s := [c] + rest;
    assert forall k :: k in t && k <= s ==> |k| <= 1;
    ReplacesLongestKey(t, s, [c]);
    assert s[1..] == rest;
  }

  /** A string that is exactly one key is replaced by that key's value. */
  lemma WholeKey(t: Table, k: string)
    requires k in t && k != []
    ensures Translate(t, k) == t[k]
  {
    assert k[..|k|] == k && k[|k|..] == [];
  }

  /** At a position where no non-empty key starts, the character is copied. */
  lemma CopiesUnmatched(t: Table, s: string)
    requires s != []
    requires forall k :: k in t && k <= s ==> k == []
    ensures Translate(t, s) == [s[0]] + Translate(t, s[1..])
  {
    assert forall m :: 0 < m <= |s| ==> s[..m] <= s;
  }

  /** For a table whose keys are at most `n` long, where no key of length up to `n` starts, the character is copied. */
  lemma CopiesUpTo(t: Table, s: string, n: nat)
    requires KeysAtMost(t, n) && s != []
    requires forall m :: 0 < m <= n && m <= |s| ==> s[..m] !in t
    ensures Translate(t, s) == [s[0]] + Translate(t, s[1..])
  {
  }

  /** No piece of `s` is a key of `t`. */
  predicate HoldsNoKey(t: Table, s: string) {
    forall i, j :: 0 <= i < j <= |s| ==> s[i..j] !in t
  }

  /** A string holding no key is returned unchanged. */
  lemma {:induction false} NoKeyUnchanged(t: Table, s: string)
    requires HoldsNoKey(t, s)
    ensures Translate(t, s) == s
  {
    if s != [] {
      var n := MatchLen(t, s, |s|);
      assert forall m :: 0 < m <= |s| ==> s[0..m] == s[..m];
      assert n == 0;
      var rest := s[1..];
      forall i, j | 0 <= i < j <= |rest|
        ensures rest[i..j] !in t
      {
        assert rest[i..j] == s[i + 1..j + 1];
      }
      NoKeyUnchanged(t, rest);
      assert Translate(t, s) == [s[0]] + Translate(t, rest);
      assert [s[0]] + rest == s;
    }
  }

  /** Every character any value of `t` holds. */
  function ValueChars(t: Table): set<char> {
    set k, c | k in t && c in t[k] :: c
  }

  /** Every character of the result is copied from `s` or comes from a value of the table. */
  lemma {:induction false} TranslateChars(t: Table, s: string)
    ensures forall i :: 0 <= i < |Translate(t, s)| ==> Translate(t, s)[i] in s || Translate(t, s)[i] in ValueChars(t)
    decreases |s|
  {
    if s != [] {
      var n := MatchLen(t, s, |s|);
      var r := Translate(t, s);
      if n > 0 {
        var k := s[..n];
        TranslateChars(t, s[n..]);
        forall i | 0 <= i < |r|
          ensures r[i] in s || r[i] in ValueChars(t)
        {
          if i < |t[k]| {
            assert r[i] == t[k][i];
            assert k in t && r[i] in t[k];
          } else {
            assert r[i] == Translate(t, s[n..])[i - |t[k]|];
          }
        }
      } else {
        TranslateChars(t, s[1..]);
        forall i | 0 <= i < |r|
          ensures r[i] in s || r[i] in ValueChars(t)
        {
          if i > 0 {
            assert r[i] == Translate(t, s[1..])[i - 1];
          } else {
            assert r[i] == s[0];
          }
        }
      }
    }
  }

  /**
   * When every value is non-empty and free of `c`, a string without "cc" is translated to one
   * without "cc", and the result begins with `c` only when `s` does.
   */
  lemma {:induction false} KeepsNoRun(t: Table, s: string, c: char)
    requires forall k :: k in t ==> t[k] != [] && c !in t[k]
    requires NoRun(c, s)
    ensures NoRun(c, Translate(t, s))
    ensures Translate(t, s) != [] && Translate(t, s)[0] == c ==> s != [] && s[0] == c
    decreases |s|
  {
    if s != [] {
      var n := MatchLen(t, s, |s|);
      var r := Translate(t, s);
      if n > 0 {
        var v, rest := t[s[..n]], Translate(t, s[n..]);
        NoRunSlice(c, s, n, |s|);
        KeepsNoRun(t, s[n..], c);
        assert r == v + rest;
        forall i | 0 <= i < |r| - 1
          ensures r[i] != c || r[i + 1] != c
        {
          if i < |v| {
            assert r[i] == v[i];
          } else {
            assert r[i] == rest[i - |v|] && r[i + 1] == rest[i + 1 - |v|];
          }
        }
      } else {
        var rest := Translate(t, s[1..]);
        NoRunSlice(c, s, 1, |s|);
        KeepsNoRun(t, s[1..], c);
        assert r == [s[0]] + rest;
        forall i | 0 <= i < |r| - 1
          ensures r[i] != c || r[i + 1] != c
        {
          if i > 0 {
            assert r[i] == rest[i - 1] && r[i + 1] == rest[i];
          }
        }
      }
    }
  }

  /** Every key of `t` is a single character. */
  predicate SingleCharKeys(t: Table) {
    forall k :: k in t ==> |k| == 1
  }

  /** What one character becomes under a table of single-character keys: its value, or itself. */
  function CharImage(t: Table, c: char): string {
    if [c] in t then t[[c]] else [c]
  }

  /** The character-by-character map: the concatenation of the images of the characters of `s`. */
  function Image(t: Table, s: string): string {
    if s == [] then [] else CharImage(t, s[0]) + Image(t, s[1..])
  }

  /** With single-character keys, `strtr` is the character-by-character map. */
  lemma {:induction false} PerCharacter(t: Table, s: string)
    requires SingleCharKeys(t)
    ensures Translate(t, s) == Image(t, s)
    decreases |s|
  {
    if s != [] {
      assert s[..1] == [s[0]];
      PerCharacter(t, s[1..]);
    }
  }

  /** The character-by-character map distributes over concatenation. */
  lemma {:induction false} ImageConcat(t: Table, a: string, b: string)
    ensures Image(t, a + b) == Image(t, a) + Image(t, b)
  {
    if a != [] {
      calc {
        Image(t, a + b);
        { assert (a + b)[0] == a[0] && (a + b)[1..] == a[1..] + b; }
        CharImage(t, a[0]) + Image(t, a[1..] + b);
        { ImageConcat(t, a[1..], b); }
        CharImage(t, a[0]) + (Image(t, a[1..]) + Image(t, b));
      }
    } else {
      assert a + b == b;
    }
  }

  /** When every character of `s` has a one-character image, the map gives those images in order. */
  lemma {:induction false} ImageOneForOne(t: Table, s: string, r: string)
    requires |s| == |r|
    requires forall i :: 0 <= i < |s| ==> CharImage(t, s[i]) == [r[i]]
    ensures Image(t, s) == r
  {
    if s != [] {
      assert CharImage(t, s[0]) == [r[0]];
      ImageOneForOne(t, s[1..], r[1..]);
      assert r == [r[0]] + r[1..];
    }
  }

  /**
   * A rewriting that goes character by character: when each step turns `s[i]` into `r[i]` and
   * carries on with the rest, the whole of `s` becomes `r`.
   */
  lemma {:induction false} StepsCompose(f: string -> string, s: string, r: string, rest: string)
    requires |s| == |r|
    requires forall i :: 0 <= i < |s| ==> f(s[i..] + rest) == [r[i]] + f(s[i + 1..] + rest)
    ensures f(s + rest) == r + f(rest)
    decreases |s|
  {
    if s == [] {
      assert s + rest == rest && r == [];
    } else {
      assert f(s[0..] + rest) == [r[0]] + f(s[1..] + rest);
      forall i | 0 <= i < |s| - 1
        ensures f(s[1..][i..] + rest) == [r[1..][i]] + f(s[1..][i + 1..] + rest)
      {
        assert s[1..][i..] == s[i + 1..] && s[1..][i + 1..] == s[i + 2..];
        assert f(s[i + 1..] + rest) == [r[i + 1]] + f(s[i + 2..] + rest);
      }
      StepsCompose(f, s[1..], r[1..], rest);
      assert s[0..] == s && r == [r[0]] + r[1..];
    }
  }

  /** No key of `t` holds the character `x` directly followed by `y`. */
  predicate NoKeyHolds(t: Table, x: char, y: char) {
    forall k :: k in t ==> !Holds(k, x, y)
  }

  /** `k` holds the character `x` directly followed by `y`. */
  predicate Holds(k: string, x: char, y: char) {
    exists i :: 0 <= i < |k| - 1 && k[i] == x && k[i + 1] == y
  }

  /** When no key holds the last character of `a` followed by the first of `b`, the longest key at the start of `a + b` is the one at the start of `a`. */
  lemma SameMatch(t: Table, a: string, b: string)
    requires a != [] && b != [] && NoKeyHolds(t, a[|a| - 1], b[0])
    ensures MatchLen(t, a + b, |a + b|) == MatchLen(t, a, |a|)
  {
    var s := a + b;
    forall m | |a| < m <= |s|
      ensures s[..m] !in t
    {
      assert s[..m][|a| - 1] == a[|a| - 1] && s[..m][|a|] == b[0];
      assert Holds(s[..m], a[|a| - 1], b[0]);
    }
    assert forall m :: 0 < m <= |a| ==> s[..m] == a[..m];
    var n, na := MatchLen(t, s, |s|), MatchLen(t, a, |a|);
    assert n <= |a|;
  }

  /** The first step of `strtr` on `a + b` when a key starts `a`. */
  lemma FirstStepKey(t: Table, a: string, b: string)
    requires a != [] && b != [] && NoKeyHolds(t, a[|a| - 1], b[0])
    requires MatchLen(t, a, |a|) > 0
    ensures var n := MatchLen(t, a, |a|); Translate(t, a + b) == t[a[..n]] + Translate(t, a[n..] + b)
  {
    var s := a + b;
    SameMatch(t, a, b);
    var n := MatchLen(t, a, |a|);
    assert s[..n] == a[..n] && s[n..] == a[n..] + b;
  }

  /** The first step of `strtr` on `a + b` when no key starts `a`. */
  lemma FirstStepCopy(t: Table, a: string, b: string)
    requires a != [] && b != [] && NoKeyHolds(t, a[|a| - 1], b[0])
    requires MatchLen(t, a, |a|) == 0
    ensures Translate(t, a + b) == [a[0]] + Translate(t, a[1..] + b)
  {
    var s := a + b;
    SameMatch(t, a, b);
    assert s[0] == a[0] && s[1..] == a[1..] + b;
  }

  /**
   * The first step of `strtr` on `a + b` is the one it takes on `a`: the same text `x` is emitted
   * and the same `d` characters are consumed.
   */
  lemma FirstStep(t: Table, a: string, b: string) returns (x: string, d: nat)
    requires a != [] && b != [] && NoKeyHolds(t, a[|a| - 1], b[0])
    ensures 0 < d <= |a|
    ensures Translate(t, a + b) == x + Translate(t, a[d..] + b)
    ensures Translate(t, a) == x + Translate(t, a[d..])
  {
    var n := MatchLen(t, a, |a|);
    if n > 0 {
      FirstStepKey(t, a, b);
      x, d := t[a[..n]], n;
    } else {
      FirstStepCopy(t, a, b);
      x, d := [a[0]], 1;
    }
  }

  /**
   * When no key holds the last character of `a` followed by the first of `b`, no key straddles
   * the boundary, and the two halves are translated separately.
   */
  lemma {:induction false} TranslateSplit(t: Table, a: string, b: string)
    requires a != [] && b != [] && NoKeyHolds(t, a[|a| - 1], b[0])
    ensures Translate(t, a + b) == Translate(t, a) + Translate(t, b)
    decreases |a|
  {
    var x, d := FirstStep(t, a, b);
    if d == |a| {
      assert a[d..] + b == b && a[d..] == [];
    } else {
      assert a[d..][|a[d..]| - 1] == a[|a| - 1];
      TranslateSplit(t, a[d..], b);
    }
  }

  /** Every key of `t` begins or ends with a character of `marks`. */
  predicate EndsMarked(t: Table, marks: set<char>) {
    forall k :: k in t ==> k != [] && (k[0] in marks || k[|k| - 1] in marks)
  }

  /** A string without any of the characters every key begins or ends with is returned unchanged. */
  lemma UnmarkedUnchanged(t: Table, s: string, marks: set<char>)
    requires EndsMarked(t, marks)
    requires forall i :: 0 <= i < |s| ==> s[i] !in marks
    ensures Translate(t, s) == s
  {
    forall i, j | 0 <= i < j <= |s|
      ensures s[i..j] !in t
    {
      assert s[i..j][0] == s[i] && s[i..j][j - i - 1] == s[j - 1];
    }
    NoKeyUnchanged(t, s);
  }

  /** Every key of `t` begins with a character of `firsts`. */
  predicate StartsWithin(t: Table, firsts: set<char>) {
    forall k :: k in t ==> k != [] && k[0] in firsts
  }

  /** Characters no key begins with are copied one by one, whatever follows them. */
  lemma {:induction false} CopiesWord(t: Table, w: string, rest: string, firsts: set<char>)
    requires StartsWithin(t, firsts)
    requires forall i :: 0 <= i < |w| ==> w[i] !in firsts
    ensures Translate(t, w + rest) == w + Translate(t, rest)
  {
    forall i | 0 <= i < |w|
      ensures Translate(t, w[i..] + rest) == [w[i]] + Translate(t, w[i + 1..] + rest)
    {
      assert w[i..] + rest == [w[i]] + (w[i + 1..] + rest);
      CopiesFirst(t, w[i], w[i + 1..] + rest, firsts);
    }
    StepsCompose(x => Translate(t, x), w, w, rest);
  }

  /** A character that begins no key is copied, and the scan goes on after it. */
  lemma CopiesFirst(t: Table, c: char, tail: string, firsts: set<char>)
    requires StartsWithin(t, firsts) && c !in firsts
    ensures Translate(t, [c] + tail) == [c] + Translate(t, tail)
  {
    var s := [c] + tail;
    assert s[0] == c && s[1..] == tail;
    assert forall k :: k in t && k <= s ==> k == [];
    CopiesUnmatched(t, s);
  }

  /** A string none of whose characters is a key is its own character-by-character image. */
  lemma {:induction false} ImageIdle(t: Table, s: string)
    requires forall i :: 0 <= i < |s| ==> [s[i]] !in t
    ensures Image(t, s) == s
  {
    if s != [] {
      assert [s[0]] !in t;
      ImageIdle(t, s[1..]);
      assert s == [s[0]] + s[1..];
    }
  }

  /** In every key of `t`, each character but the last is in `heads` and each but the first in `tails`. */
  predicate PairsWithin(t: Table, heads: set<char>, tails: set<char>) {
    forall k :: k in t ==>
      (forall i :: 0 <= i < |k| - 1 ==> k[i] in heads) && (forall i :: 0 < i < |k| ==> k[i] in tails)
  }

  /** A pair outside `heads` x `tails` is held by no key. */
  lemma NoKeyHoldsOutside(t: Table, heads: set<char>, tails: set<char>, x: char, y: char)
    requires PairsWithin(t, heads, tails) && (x !in heads || y !in tails)
    ensures NoKeyHolds(t, x, y)
  {
  }

  /** An unmarked piece followed by a character no key joins it to is copied, and the scan goes on after it. */
  lemma CopiesUnmarked(t: Table, w: string, rest: string, marks: set<char>)
    requires EndsMarked(t, marks) && w != []
    requires forall i :: 0 <= i < |w| ==> w[i] !in marks
    requires rest == [] || NoKeyHolds(t, w[|w| - 1], rest[0])
    ensures Translate(t, w + rest) == w + Translate(t, rest)
  {
    UnmarkedUnchanged(t, w, marks);
    if rest == [] {
      assert w + rest == w;
    } else {
      TranslateSplit(t, w, rest);
    }
  }

  /** A key followed by a character no key joins it to is replaced, and the scan goes on after it. */
  lemma ReplacesAlone(t: Table, k: string, rest: string)
    requires k in t && k != []
    requires rest == [] || NoKeyHolds(t, k[|k| - 1], rest[0])
    ensures Translate(t, k + rest) == t[k] + Translate(t, rest)
  {
    WholeKey(t, k);
    if rest == [] {
      assert k + rest == k;
    } else {
      TranslateSplit(t, k, rest);
    }
  }

  /** A table pass that leaves two pieces alone leaves their concatenation alone when no key spans the joint. */
  lemma {:induction false} TranslateIdleSplit(t: Table, a: string, b: string)
    requires a != [] && b != [] && NoKeyHolds(t, a[|a| - 1], b[0])
    requires Translate(t, a) == a && Translate(t, b) == b
    ensures Translate(t, a + b) == a + b
  {
    TranslateSplit(t, a, b);
  }

  /** A character-by-character pass works on the two pieces separately. */
  lemma {:induction false} ImageSplit(t: Table, a: string, b: string, ra: string, rb: string)
    requires Image(t, a) == ra && Image(t, b) == rb
    ensures Image(t, a + b) == ra + rb
  {
    ImageConcat(t, a, b);
  }

  /** A pass over four pieces is the four passes put together when no key spans a joint. */
  lemma {:induction false} TranslateFour(t: Table, a: string, b: string, c: string, d: string,
                                         ra: string, rb: string, rc: string, rd: string)
    requires a != [] && b != [] && c != [] && d != []
    requires NoKeyHolds(t, a[|a| - 1], b[0]) && NoKeyHolds(t, b[|b| - 1], c[0]) && NoKeyHolds(t, c[|c| - 1], d[0])
    requires Translate(t, a) == ra && Translate(t, b) == rb && Translate(t, c) == rc && Translate(t, d) == rd
    ensures Translate(t, a + b + c + d) == ra + rb + rc + rd
  {
    TranslateSplit(t, a, b);
    assert (a + b)[|a + b| - 1] == b[|b| - 1];
    TranslateSplit(t, a + b, c);
    assert (a + b + c)[|a + b + c| - 1] == c[|c| - 1];
    TranslateSplit(t, a + b + c, d);
  }

  /** A table whose keys are single characters has no key that holds a pair. */
  lemma SingleKeysHoldNoPair(t: Table, x: char, y: char)
    requires SingleCharKeys(t)
    ensures NoKeyHolds(t, x, y)
  {
    forall k | k in t
      ensures !Holds(k, x, y)
    {
      assert |k| == 1;
    }
  }
}
