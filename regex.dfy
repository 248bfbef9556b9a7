/**
 * The four `preg_replace` patterns applied in order by `url()`: the character
 * whitelist, the hyphen collapse, the tag strip and the dot collapse.
 */
module Regex {
  import opened Text

  /** The class `[a-z0-9\-.\/]`. */
  predicate IsSlugChar(c: char) {
    'a' <= c <= 'z' || '0' <= c <= '9' || c == '-' || c == '.' || c == '/'
  }

  predicate AllSlugChars(s: string) {
    forall i :: 0 <= i < |s| ==> IsSlugChar(s[i])
  }

  /** `preg_replace('/[^a-z0-9\-.\/]/', '', $s)`: every character outside the class is deleted. */
  function Whitelist(s: string): (r: string)
    ensures AllSlugChars(r)
    ensures forall c :: multiset(r)[c] == if IsSlugChar(c) then multiset(s)[c] else 0
    ensures AllSlugChars(s) ==> r == s
  {
    if s == [] then []
    else
      assert s == [s[0]] + s[1..];
      if IsSlugChar(s[0]) then [s[0]] + Whitelist(s[1..]) else Whitelist(s[1..])
  }

  /** The whitelist filter works on each character on its own, so it distributes over concatenation. */
  lemma {:induction false} WhitelistConcat(a: string, b: string)
    ensures Whitelist(a + b) == Whitelist(a) + Whitelist(b)
  {
    if a == [] {
      assert a + b == b;
    } else {
      assert (a + b)[0] == a[0] && (a + b)[1..] == a[1..] + b;
      WhitelistConcat(a[1..], b);
    }
  }

  /**
   * `preg_replace('/c+/', 'c', $s)`, which is also the effect of `/c{2,}/` -> c: every maximal
   * run of `c` becomes a single `c`, and the first character is kept.
   */
  function Collapse(c: char, s: string): (r: string)
    ensures NoRun(c, r)
    ensures (r == []) == (s == []) && (r != [] ==> r[0] == s[0])
  {
    if s == [] then []
    else if |s| >= 2 && s[0] == c && s[1] == c then Collapse(c, s[1..])
    else [s[0]] + Collapse(c, s[1..])
  }

  /** Only copies of `c` are deleted, and never the last one: `c` occurs in the result exactly when it occurs in `s`. */
  lemma {:induction false} CollapseCounts(c: char, s: string)
    ensures forall d :: d != c ==> multiset(Collapse(c, s))[d] == multiset(s)[d]
    ensures multiset(Collapse(c, s))[c] <= multiset(s)[c]
    ensures (c in Collapse(c, s)) == (c in s)
  {
    if s != [] {
      assert s == [s[0]] + s[1..];
      CollapseCounts(c, s[1..]);
      if |s| >= 2 && s[0] == c && s[1] == c {
        assert c in s[1..];
      } else {
        assert Collapse(c, s) == [s[0]] + Collapse(c, s[1..]);
      }
    }
  }

  /** A string without "cc" is left as it is. */
  lemma {:induction false} CollapseRunFree(c: char, s: string)
    requires NoRun(c, s)
    ensures Collapse(c, s) == s
  {
    if s != [] {
      NoRunSlice(c, s, 1, |s|);
      CollapseRunFree(c, s[1..]);
    }
  }

  /** Collapsing runs of `c` creates no run of any other character. */
  lemma {:induction false} CollapseKeepsNoRun(c: char, d: char, s: string)
    requires d != c && NoRun(d, s)
    ensures NoRun(d, Collapse(c, s))
  {
    if s != [] {
      NoRunSlice(d, s, 1, |s|);
      CollapseKeepsNoRun(c, d, s[1..]);
    }
  }

  /** Collapsing keeps only characters of its input. */
  lemma CollapseChars(c: char, s: string)
    ensures forall i :: 0 <= i < |Collapse(c, s)| ==> Collapse(c, s)[i] in s
  {
    var r := Collapse(c, s);
    CollapseCounts(c, s);
    forall i | 0 <= i < |r|
      ensures r[i] in s
    {
      assert r[i] in multiset(r);
    }
  }

  /** A piece without "cc" that does not end in a run with what follows is kept as it is. */
  lemma {:induction false} CollapseKeeps(c: char, w: string, rest: string)
    requires NoRun(c, w)
    requires w != [] && rest != [] && w[|w| - 1] == c ==> rest[0] != c
    ensures Collapse(c, w + rest) == w + Collapse(c, rest)
    decreases |w|
  {
    if w == [] {
      assert w + rest == rest;
    } else {
      var s := w + rest;
      assert s[0] == w[0] && s[1..] == w[1..] + rest;
      assert |s| >= 2 ==> s[1] == (if |w| >= 2 then w[1] else rest[0]);
      NoRunSlice(c, w, 1, |w|);
      CollapseKeeps(c, w[1..], rest);
      assert w == [w[0]] + w[1..];
    }
  }

  /** Runs of `c` never cross a boundary that does not lie between two copies of `c`, so each side is collapsed on its own. */
  lemma {:induction false} CollapseSplit(c: char, a: string, b: string)
    requires a != [] && b != [] && a[|a| - 1] == c ==> b[0] != c
    ensures Collapse(c, a + b) == Collapse(c, a) + Collapse(c, b)
    decreases |a|
  {
    if a == [] {
      assert a + b == b;
    } else {
      var s := a + b;
      assert s[0] == a[0] && s[1..] == a[1..] + b;
      if |a| == 1 {
        assert a[1..] == [] && s[1..] == b;
      } else {
        assert s[1] == a[1] && a[1..][|a[1..]| - 1] == a[|a| - 1];
        CollapseSplit(c, a[1..], b);
      }
    }
  }

  /** A `c` followed by another `c` is dropped. */
  lemma CollapseDrops(c: char, rest: string)
    requires rest != [] && rest[0] == c
    ensures Collapse(c, [c] + rest) == Collapse(c, rest)
  {
    assert ([c] + rest)[1..] == rest;
  }

  /** No '<' is followed, anywhere later, by a '>': no substring matches `<[^>]*>`. */
  predicate NoTag(s: string) {
    forall i, j :: 0 <= i < j < |s| && s[i] == '<' ==> s[j] != '>'
  }

  /** Position of the first `c` in `s`. */
  function IndexOf(s: string, c: char): (k: nat)
    requires c in s
    ensures k < |s| && s[k] == c && c !in s[..k]
  {
    if s[0] == c then 0 else assert s == [s[0]] + s[1..]; 1 + IndexOf(s[1..], c)
  }

  /**
   * `preg_replace('/<[^>]*>/', '', $s)`: from each '<' that has a '>' after it, everything up to
   * and including the first such '>' is deleted; a '<' with no '>' after it is kept.
   */
  function StripTags(s: string): (r: string)
    ensures NoTag(r)
    ensures forall i :: 0 <= i < |r| ==> r[i] in s
    ensures '<' !in s ==> r == s
    decreases |s|
  {
    if s == [] then []
    else if s[0] == '<' && '>' in s then
      var k := IndexOf(s, '>');
      assert forall i :: k + 1 <= i < |s| ==> s[i] == s[k + 1..][i - k - 1];
      StripTags(s[k + 1..])
    else
      assert s == [s[0]] + s[1..];
      [s[0]] + StripTags(s[1..])
  }

  /** Text before the first '<' is kept as it is. */
  lemma {:induction false} StripTagsKeepsPrefix(a: string, t: string)
    requires '<' !in a
    ensures StripTags(a + t) == a + StripTags(t)
    decreases |a|
  {
    if a != [] {
      var s := a + t;
      assert s[0] == a[0] && s[1..] == a[1..] + t;
      assert '<' !in a[1..];
      StripTagsKeepsPrefix(a[1..], t);
      assert a == [a[0]] + a[1..];
    } else {
      assert a + t == t;
    }
  }

  /** A '<', then text without '>', then '>' is deleted as one tag, and the scan goes on after it. */
  lemma {:induction false} StripTagsFirst(m: string, b: string)
    requires '>' !in m
    ensures StripTags(['<'] + m + ['>'] + b) == StripTags(b)
  {
    var s := ['<'] + m + ['>'] + b;
    assert s[0] == '<' && s[|m| + 1] == '>';
    var k := IndexOf(s, '>');
    assert s[..|m| + 1] == ['<'] + m;
    assert k == |m| + 1;
    assert s[k + 1..] == b;
  }

  /** A string without '>' holds no tag, so every '<' in it is kept. */
  lemma {:induction false} StripTagsUnclosed(s: string)
    requires '>' !in s
    ensures StripTags(s) == s
    decreases |s|
  {
    if s != [] {
      assert !('>' in s);
      assert StripTags(s) == [s[0]] + StripTags(s[1..]);
      assert '>' !in s[1..];
      StripTagsUnclosed(s[1..]);
      assert s == [s[0]] + s[1..];
    }
  }

  /** The whitelist works on the two pieces separately. */
  lemma {:induction false} WhitelistSplit(a: string, b: string, ra: string, rb: string)
    requires Whitelist(a) == ra && Whitelist(b) == rb
    ensures Whitelist(a + b) == ra + rb
  {
    WhitelistConcat(a, b);
  }

  /** Collapsing runs leaves two run-free pieces alone when the joint is not between two copies of `c`. */
  lemma {:induction false} CollapseIdleSplit(c: char, a: string, b: string)
    requires NoRun(c, a) && NoRun(c, b)
    requires a != [] && b != [] && a[|a| - 1] == c ==> b[0] != c
    ensures Collapse(c, a + b) == a + b
  {
    CollapseSplit(c, a, b);
    CollapseRunFree(c, a);
    CollapseRunFree(c, b);
  }

  /** The whitelist deletes one character outside the class between two pieces made of slug characters. */
  lemma {:induction false} WhitelistDrops(a: string, c: char, b: string)
    requires AllSlugChars(a) && !IsSlugChar(c) && AllSlugChars(b)
    ensures Whitelist(a + [c] + b) == a + b
  {
    calc {
      Whitelist(a + [c] + b);
    == { WhitelistConcat(a + [c], b); }
      Whitelist(a + [c]) + Whitelist(b);
    == { WhitelistConcat(a, [c]); }
      Whitelist(a) + Whitelist([c]) + Whitelist(b);
    == { assert [c][1..] == []; }
      a + [] + b;
    == 
      a + b;
    }
  }

  /** The whitelist over four pieces. */
  lemma {:induction false} WhitelistFour(a: string, b: string, c: string, d: string,
                                         ra: string, rb: string, rc: string, rd: string)
    requires Whitelist(a) == ra && Whitelist(b) == rb && Whitelist(c) == rc && Whitelist(d) == rd
    ensures Whitelist(a + b + c + d) == ra + rb + rc + rd
  {
    WhitelistConcat(a, b);
    WhitelistConcat(a + b, c);
    WhitelistConcat(a + b + c, d);
  }

  /** Collapsing runs of `c` over four pieces, none of which meets the next between two copies of `c`. */
  lemma {:induction false} CollapseFour(c: char, a: string, b: string, d: string, e: string,
                                        ra: string, rb: string, rd: string, re: string)
    requires a != [] && b != [] && d != [] && e != []
    requires a[|a| - 1] != c && b[|b| - 1] != c && d[|d| - 1] != c
    requires Collapse(c, a) == ra && Collapse(c, b) == rb && Collapse(c, d) == rd && Collapse(c, e) == re
    ensures Collapse(c, a + b + d + e) == ra + rb + rd + re
  {
    CollapseSplit(c, a, b);
    assert (a + b)[|a + b| - 1] == b[|b| - 1];
    CollapseSplit(c, a + b, d);
    assert (a + b + d)[|a + b + d| - 1] == d[|d| - 1];
    CollapseSplit(c, a + b + d, e);
  }

  /** A run of three copies of `c` between two run-free pieces that do not touch it with `c` becomes one. */
  lemma {:induction false} CollapseTriple(c: char, w: string, rest: string)
    requires NoRun(c, w) && (w == [] || w[|w| - 1] != c)
    requires NoRun(c, rest) && (rest == [] || rest[0] != c)
    ensures Collapse(c, w + [c, c, c] + rest) == w + [c] + rest
  {
    assert w + [c, c, c] + rest == w + ([c] + ([c] + ([c] + rest)));
    CollapseKeeps(c, w, [c] + ([c] + ([c] + rest)));
    CollapseDrops(c, [c] + ([c] + rest));
    CollapseDrops(c, [c] + rest);
    assert NoRun(c, [c] + rest);
    CollapseRunFree(c, [c] + rest);
  }
}
