/**
 * `Sanitizer::url()` (src/Sanitizer.php:60-140): turns text into a lowercase, hyphenated
 * string safe for the query part of a URL, as a chain of whole-string rewrites.
 */
module Sanitizer {
  import opened Wrappers
  import opened Text
  import opened Strtr
  import opened Trims
  import opened Regex
  import opened Tables

  /** PHP's `!$string` on null or a string: true exactly for null, "" and "0". */
  predicate IsFalsy(x: Option<string>) {
    x == None || x == Some("") || x == Some("0")
  }

  /** The four table passes, currency first (lines 67-120). */
  function Substitute(s: string): string {
    Translate(Reserved, Translate(Cyrillic, Translate(Accents, Translate(Currency, s))))
  }

  /**
   * The four regular expressions of lines 123-129, applied in order: the whitelist, the
   * hyphen collapse, the tag strip and the dot collapse.
   */
  function Filter(s: string): (r: string)
    ensures AllSlugChars(r) && NoRun('-', r) && NoRun('.', r)
  {
    var w := Whitelist(s);
    var h := Collapse('-', w);
    var t := StripTags(h);
    var d := Collapse('.', t);
    CollapseChars('-', w);
    CollapseChars('.', t);
    CollapseKeepsNoRun('.', '-', t);
    d
  }

  /** Lines 132-136: "-/-" becomes "/", then slashes and then dots are trimmed from both ends. */
  function TrimEdges(s: string): (r: string)
    ensures r != [] ==> r[0] != '.' && r[|r| - 1] != '.'
  {
    TrimSlashesThenDots(Translate(SlashJoin, s))
  }

  /** Lines 133-136: `ltrim` and `rtrim` of '/', then of '.'. */
  function TrimSlashesThenDots(s: string): (r: string)
    ensures r != [] ==> r[0] != '.' && r[|r| - 1] != '.'
  {
    TrimRight(TrimLeft(TrimRight(TrimLeft(s, {'/'}), {'/'}), {'.'}), {'.'})
  }

  /** A string that does not begin or end with '/' or '.' is not trimmed. */
  lemma TrimSlashesThenDotsIdle(s: string)
    requires s != [] ==> s[0] !in {'/', '.'} && s[|s| - 1] !in {'/', '.'}
    ensures TrimSlashesThenDots(s) == s
  {
    TrimLeftStops(s, {'/'});
    TrimRightStops(s, {'/'});
    TrimLeftStops(s, {'.'});
    TrimRightStops(s, {'.'});
  }

  /** A '/' behind a leading '.' is kept, since slashes are trimmed first. */
  lemma LeadingDotSlash(s: string)
    requires |s| >= 3 && s[0] == '.' && s[1] == '/' && s[|s| - 1] !in {'/', '.'}
    ensures TrimSlashesThenDots(s) == s[1..]
  {
    var t := s[1..];
    calc {
      TrimSlashesThenDots(s);
      TrimRight(TrimLeft(TrimRight(TrimLeft(s, {'/'}), {'/'}), {'.'}), {'.'});
      { TrimLeftStops(s, {'/'}); TrimRightStops(s, {'/'}); }
      TrimRight(TrimLeft(s, {'.'}), {'.'});
      { TrimLeftStep(s, {'.'}); TrimLeftStops(t, {'.'}); }
      TrimRight(t, {'.'});
      { TrimRightStops(t, {'.'}); }
      t;
    }
  }

  /** A '/' in front of a trailing '.' is kept, since slashes are trimmed first. */
  lemma TrailingSlashDot(s: string)
    requires |s| >= 3 && s[|s| - 1] == '.' && s[|s| - 2] == '/' && s[0] !in {'/', '.'}
    ensures TrimSlashesThenDots(s) == s[..|s| - 1]
  {
    var t := s[..|s| - 1];
    calc {
      TrimSlashesThenDots(s);
      TrimRight(TrimLeft(TrimRight(TrimLeft(s, {'/'}), {'/'}), {'.'}), {'.'});
      { TrimLeftStops(s, {'/'}); TrimRightStops(s, {'/'}); TrimLeftStops(s, {'.'}); }
      TrimRight(s, {'.'});
      { TrimRightStep(s, {'.'}); TrimRightStops(t, {'.'}); }
      t;
    }
  }

  /** A single trailing '.' is trimmed. */
  lemma TrailingDot(s: string)
    requires |s| >= 2 && s[|s| - 1] == '.' && s[|s| - 2] !in {'/', '.'} && s[0] !in {'/', '.'}
    ensures TrimSlashesThenDots(s) == s[..|s| - 1]
  {
    TrimLeftStops(s, {'/'});
    TrimRightStops(s, {'/'});
    TrimLeftStops(s, {'.'});
    TrimRightStep(s, {'.'});
    TrimRightStops(s[..|s| - 1], {'.'});
  }

  /** A leading '/' alone is trimmed. */
  lemma LeadingSlash(s: string)
    requires |s| >= 2 && s[0] == '/' && s[1] !in {'/', '.'} && s[|s| - 1] !in {'/', '.'}
    ensures TrimSlashesThenDots(s) == s[1..]
  {
    TrimLeftStep(s, {'/'});
    TrimLeftStops(s[1..], {'/'});
    TrimSlashesThenDotsIdle(s[1..]);
  }

  /** A trailing '/' alone is trimmed. */
  lemma TrailingSlash(s: string)
    requires |s| >= 2 && s[|s| - 1] == '/' && s[|s| - 2] !in {'/', '.'} && s[0] !in {'/', '.'}
    ensures TrimSlashesThenDots(s) == s[..|s| - 1]
  {
    TrimLeftStops(s, {'/'});
    TrimRightStep(s, {'/'});
    TrimRightStops(s[..|s| - 1], {'/'});
    TrimSlashesThenDotsIdle(s[..|s| - 1]);
  }

  /** The edge clean-up keeps a string whitelisted and creates no run of any character but '/'. */
  lemma TrimEdgesKeeps(s: string, c: char)
    ensures AllSlugChars(s) ==> AllSlugChars(TrimEdges(s))
    ensures c != '/' && NoRun(c, s) ==> NoRun(c, TrimEdges(s))
  {
    var j := Translate(SlashJoin, s);
    JoinKeeps(s, c);
    if AllSlugChars(s) {
      TrimsKeepChars(j, {'/'}, {'.'});
    }
    if c != '/' && NoRun(c, s) {
      TrimsKeepNoRun(j, {'/'}, {'.'}, c);
    }
  }

  /** The "-/-" pass inserts only '/' and creates no run of any other character. */
  lemma JoinKeeps(s: string, c: char)
    ensures AllSlugChars(s) ==> AllSlugChars(Translate(SlashJoin, s))
    ensures c != '/' && NoRun(c, s) ==> NoRun(c, Translate(SlashJoin, s))
  {
    var j := Translate(SlashJoin, s);
    assert forall k :: k in SlashJoin ==> SlashJoin[k] == "/";
    TranslateChars(SlashJoin, s);
    if AllSlugChars(s) {
      forall i | 0 <= i < |j|
        ensures IsSlugChar(j[i])
      {
        if j[i] !in s {
          var k :| k in SlashJoin && j[i] in SlashJoin[k];
        }
      }
    }
    if c != '/' && NoRun(c, s) {
      KeepsNoRun(SlashJoin, s, c);
    }
  }

  /** A contiguous piece of a whitelisted string is whitelisted. */
  lemma PieceChars(s: string, i: nat, j: nat)
    requires AllSlugChars(s) && i <= j <= |s|
    ensures AllSlugChars(s[i..j])
  {
    forall k | 0 <= k < j - i
      ensures IsSlugChar(s[i..j][k])
    {
      assert s[i..j][k] == s[i + k];
    }
  }

  /** Trimming two character lists from both ends keeps a whitelisted string whitelisted. */
  lemma TrimsKeepChars(s: string, a: set<char>, b: set<char>)
    requires AllSlugChars(s)
    ensures AllSlugChars(TrimRight(TrimLeft(TrimRight(TrimLeft(s, a), a), b), b))
  {
    var p := TrimLeft(s, a);
    LeftKeepsChars(s, a);
    var q := TrimRight(p, a);
    RightKeepsChars(p, a);
    var u := TrimLeft(q, b);
    LeftKeepsChars(q, b);
    RightKeepsChars(u, b);
  }

  /** `ltrim` keeps a whitelisted string whitelisted. */
  lemma LeftKeepsChars(s: string, cs: set<char>)
    requires AllSlugChars(s)
    ensures AllSlugChars(TrimLeft(s, cs))
  {
    PieceChars(s, |s| - |TrimLeft(s, cs)|, |s|);
  }

  /** `rtrim` keeps a whitelisted string whitelisted. */
  lemma RightKeepsChars(s: string, cs: set<char>)
    requires AllSlugChars(s)
    ensures AllSlugChars(TrimRight(s, cs))
  {
    PieceChars(s, 0, |TrimRight(s, cs)|);
  }

  /** Trimming two character lists from both ends creates no run of `c`. */
  lemma TrimsKeepNoRun(s: string, a: set<char>, b: set<char>, c: char)
    requires NoRun(c, s)
    ensures NoRun(c, TrimRight(TrimLeft(TrimRight(TrimLeft(s, a), a), b), b))
  {
    var p := TrimLeft(s, a);
    LeftKeepsNoRun(s, a, c);
    var q := TrimRight(p, a);
    RightKeepsNoRun(p, a, c);
    var u := TrimLeft(q, b);
    LeftKeepsNoRun(q, b, c);
    RightKeepsNoRun(u, b, c);
  }

  /** `ltrim` creates no run of `c`. */
  lemma LeftKeepsNoRun(s: string, cs: set<char>, c: char)
    requires NoRun(c, s)
    ensures NoRun(c, TrimLeft(s, cs))
  {
    NoRunSlice(c, s, |s| - |TrimLeft(s, cs)|, |s|);
  }

  /** `rtrim` creates no run of `c`. */
  lemma RightKeepsNoRun(s: string, cs: set<char>, c: char)
    requires NoRun(c, s)
    ensures NoRun(c, TrimRight(s, cs))
  {
    NoRunSlice(c, s, 0, |TrimRight(s, cs)|);
  }

  /** Everything `url()` does to a string once it has been trimmed and lowered (lines 67-139). */
  function Slug(s: string): (r: string)
    ensures AllSlugChars(r)
    ensures NoRun('-', r) && NoRun('.', r)
    ensures r != [] ==> r[0] != '.' && r[|r| - 1] != '.'
  {
    var f := Filter(Substitute(s));
    var e := TrimEdges(f);
    TrimEdgesKeeps(f, '-');
    TrimEdgesKeeps(f, '.');
    TrimIdle(e);
    Trim(e)
  }

  /**
   * The stages of `url()` one after the other: when the four tables, the regular expressions and
   * the edge clean-up take `s` through these intermediate strings, the slug is the last of them.
   */
  lemma SlugStages(s: string, c: string, a: string, y: string, r: string, w: string, h: string, f: string, out: string)
    requires Translate(Currency, s) == c && Translate(Accents, c) == a && Translate(Cyrillic, a) == y
    requires Translate(Reserved, y) == r
    requires Whitelist(r) == w && Collapse('-', w) == h && Collapse('.', h) == f
    requires TrimEdges(f) == out
    ensures Slug(s) == out
  {
    TagStripIdle(r);
    assert Filter(r) == f;
    TrimEdgesKeeps(f, '-');
    TrimIdle(out);
  }

  /** The final `trim` of line 139 does nothing: no whitelisted character is whitespace. */
  lemma TrimIdle(s: string)
    requires AllSlugChars(s)
    ensures Trim(s) == s
  {
    assert forall i :: 0 <= i < |s| ==> s[i] !in Whitespace;
  }

  /** `Sanitizer::url($string)`, with PHP's `mb_strtolower($s, "UTF-8")` given as `lower`. */
  function Url(x: Option<string>, lower: string -> string): (r: Option<string>)
    ensures r.None? <==> IsFalsy(x)
    ensures r.Some? ==> AllSlugChars(r.value) && NoRun('-', r.value) && NoRun('.', r.value)
    ensures r.Some? && r.value != [] ==> r.value[0] != '.' && r.value[|r.value| - 1] != '.'
  {
    if IsFalsy(x) then None else Some(Slug(lower(Trim(x.value))))
  }

  /** `s` holds no "-/-". */
  predicate NoJoin(s: string) {
    forall i :: 0 <= i < |s| - 2 ==> !(s[i] == '-' && s[i + 1] == '/' && s[i + 2] == '-')
  }

  /** A string the pipeline has nothing to do to but trim: whitelisted, with no "--", "..", "//" or "-/-". */
  predicate Clean(s: string) {
    AllSlugChars(s) && NoRun('-', s) && NoRun('.', s) && NoRun('/', s) && NoJoin(s)
  }

  /** A whitelisted string without "//" or "-/-" goes through the four tables unchanged. */
  lemma SubstituteIdle(s: string)
    requires AllSlugChars(s) && NoRun('/', s) && NoJoin(s)
    ensures Substitute(s) == s
  {
    CurrencyIdle(s);
    AccentsIdle(s);
    CyrillicIdle(s);
    ReservedIdle(s);
  }

  /** A table each of whose keys begins or ends with a non-whitelisted character leaves a whitelisted string alone. */
  lemma NoSlugKeyIdle(t: Table, s: string)
    requires KeysNotSlug(t)
    requires AllSlugChars(s)
    ensures Translate(t, s) == s
  {
    forall i, j | 0 <= i < j <= |s|
      ensures s[i..j] !in t
    {
      assert s[i..j][0] == s[i] && s[i..j][j - i - 1] == s[j - 1];
    }
    NoKeyUnchanged(t, s);
  }

  /** The currency pass leaves a whitelisted string alone. */
  lemma CurrencyIdle(s: string)
    requires AllSlugChars(s)
    ensures Translate(Currency, s) == s
  {
    CurrencyKeysNotSlug();
    NoSlugKeyIdle(Currency, s);
  }

  /** The accent pass leaves a whitelisted string alone. */
  lemma AccentsIdle(s: string)
    requires AllSlugChars(s)
    ensures Translate(Accents, s) == s
  {
    AccentKeys();
    CharKeysNotSlug(Accents, '\U{00C0}', '\U{01FF}');
    NoSlugKeyIdle(Accents, s);
  }

  /** The Cyrillic pass leaves a whitelisted string alone. */
  lemma CyrillicIdle(s: string)
    requires AllSlugChars(s)
    ensures Translate(Cyrillic, s) == s
  {
    CyrillicKeys();
    CharKeysNotSlug(Cyrillic, '\U{0400}', '\U{04FF}');
    NoSlugKeyIdle(Cyrillic, s);
  }

  /** The only reserved keys made of whitelisted characters are "//" and "-/-". */
  lemma ReservedIdle(s: string)
    requires AllSlugChars(s) && NoRun('/', s) && NoJoin(s)
    ensures Translate(Reserved, s) == s
  {
    ReservedKeysNotSlug();
    forall i, j | 0 <= i < j <= |s|
      ensures s[i..j] !in Reserved
    {
      var p := s[i..j];
      assert p[0] == s[i];
      if |p| == 2 {
        assert p[1] == s[i + 1];
      } else if |p| == 3 {
        assert p[1] == s[i + 1] && p[2] == s[i + 2];
      }
    }
    NoKeyUnchanged(Reserved, s);
  }

  /** The tag strip of line 125 never changes anything: after the whitelist no '<' is left. */
  lemma TagStripIdle(s: string)
    ensures StripTags(Collapse('-', Whitelist(s))) == Collapse('-', Whitelist(s))
  {
    var w := Whitelist(s);
    CollapseChars('-', w);
    assert '<' !in Collapse('-', w);
  }

  /** A whitelisted string without "--" or ".." passes the regular expressions unchanged. */
  lemma FilterIdle(s: string)
    requires AllSlugChars(s) && NoRun('-', s) && NoRun('.', s)
    ensures Filter(s) == s
  {
    CollapseRunFree('-', s);
    assert '<' !in s;
    CollapseRunFree('.', s);
  }

  /** A string without "-/-" passes the second "-/-" pass unchanged. */
  lemma JoinIdle(s: string)
    requires NoJoin(s)
    ensures Translate(SlashJoin, s) == s
  {
    forall i, j | 0 <= i < j <= |s|
      ensures s[i..j] !in SlashJoin
    {
      var p := s[i..j];
      if |p| == 3 {
        assert p[0] == s[i] && p[1] == s[i + 1] && p[2] == s[i + 2];
      }
    }
    NoKeyUnchanged(SlashJoin, s);
  }

  /** On a clean string the whole of `url()` after lowering only trims slashes, then dots, from the ends. */
  lemma CleanSlug(s: string)
    requires Clean(s)
    ensures Slug(s) == TrimSlashesThenDots(s)
  {
    SubstituteIdle(s);
    FilterIdle(s);
    assert Filter(Substitute(s)) == s;
    JoinIdle(s);
    TrimEdgesKeeps(s, '-');
    TrimIdle(TrimEdges(s));
  }

  /**
   * Slashes are trimmed before dots (lines 133-136), so a slash behind a leading dot survives:
   * the result may begin with '/', and running it through again changes it.
   */
  lemma LeadingSlashSurvives(s: string)
    requires Clean(s) && |s| >= 3 && s[0] == '.' && s[1] == '/'
    requires s[2] !in {'/', '.'} && s[|s| - 1] !in {'/', '.'}
    ensures Slug(s) == s[1..] && s[1..][0] == '/'
    ensures Slug(Slug(s)) == s[2..] != Slug(s)
  {
    CleanSlug(s);
    LeadingDotSlash(s);
    var t := s[1..];
    CleanTail(s, 1);
    CleanSlug(t);
    LeadingSlash(t);
    assert t[1..] == s[2..];
  }

  /** The same at the other end: a slash in front of a trailing dot survives. */
  lemma TrailingSlashSurvives(s: string)
    requires Clean(s) && |s| >= 3 && s[|s| - 1] == '.' && s[|s| - 2] == '/'
    requires s[|s| - 3] !in {'/', '.'} && s[0] !in {'/', '.'}
    ensures Slug(s) == s[..|s| - 1] && s[..|s| - 1][|s| - 2] == '/'
    ensures Slug(Slug(s)) == s[..|s| - 2] != Slug(s)
  {
    CleanSlug(s);
    TrailingSlashDot(s);
    var t := s[..|s| - 1];
    CleanHead(s, |s| - 1);
    CleanSlug(t);
    TrailingSlash(t);
    PrefixOfPrefix(s, |s| - 1, |s| - 2);
  }

  /** A suffix of a clean string is clean. */
  lemma CleanTail(s: string, i: nat)
    requires Clean(s) && i <= |s|
    ensures Clean(s[i..])
  {
    NoRunSlice('-', s, i, |s|);
    NoRunSlice('.', s, i, |s|);
    NoRunSlice('/', s, i, |s|);
    PieceChars(s, i, |s|);
    assert forall k :: 0 <= k < |s| - i ==> s[i..][k] == s[i + k];
  }

  /** A prefix of a clean string is clean. */
  lemma CleanHead(s: string, j: nat)
    requires Clean(s) && j <= |s|
    ensures Clean(s[..j])
  {
    NoRunSlice('-', s, 0, j);
    NoRunSlice('.', s, 0, j);
    NoRunSlice('/', s, 0, j);
    PieceChars(s, 0, j);
    assert s[0..j] == s[..j];
    assert forall k :: 0 <= k < j ==> s[..j][k] == s[k];
  }

  /**
   * An input that is not falsy and trims to a clean string that neither begins nor ends with
   * '/' or '.', and that lowering leaves alone, gives that string.
   */
  lemma CleanUrl(s: string, w: string, lower: string -> string)
    requires !IsFalsy(Some(s)) && Trim(s) == w && lower(w) == w && Clean(w)
    requires w != [] ==> w[0] !in {'/', '.'} && w[|w| - 1] !in {'/', '.'}
    ensures Url(Some(s), lower) == Some(w)
  {
    CleanSlugFixed(w);
  }

  /** A clean string that neither begins nor ends with '/' or '.' is its own slug. */
  lemma CleanSlugFixed(w: string)
    requires Clean(w)
    requires w != [] ==> w[0] !in {'/', '.'} && w[|w| - 1] !in {'/', '.'}
    ensures Slug(w) == w
  {
    CleanSlug(w);
    TrimSlashesThenDotsIdle(w);
  }

  /** The falsy test comes before the trim (lines 62 and 65): "0" gives null, but " 0" gives "0". */
  lemma PaddedZero(lower: string -> string)
    requires lower("0") == "0"
    ensures Url(Some("0"), lower) == None
    ensures Url(Some(" 0"), lower) == Some("0")
  {
    assert IsFalsy(Some("0")) && !IsFalsy(Some(" 0"));
    ZeroTrim();
    DigitClean('0');
    CleanUrl(" 0", "0", lower);
  }

  /** A single digit is clean. */
  lemma DigitClean(c: char)
    requires '0' <= c <= '9'
    ensures Clean([c])
  {
  }

  /** `trim(" 0")` is "0". */
  lemma ZeroTrim()
    ensures Trim(" 0") == "0"
  {
    TrimOneLeading(" 0");
    assert " 0"[1..] == "0";
  }

  /** A blank input is not falsy: it gives the empty string, not null. */
  lemma Blank(lower: string -> string)
    requires lower("") == ""
    ensures Url(Some(" "), lower) == Some("")
  {
    BlankTrim();
    CleanUrl(" ", "", lower);
  }

  /** `trim(" ")` is "". */
  lemma BlankTrim()
    ensures Trim(" ") == ""
  {
    TrimOneLeading(" ");
    assert " "[1..] == "";
  }

  /** A piece without currency marks is left alone by the currency pass. */
  lemma {:induction false} CurrencyUnmarked(s: string)
    requires forall i :: 0 <= i < |s| ==> s[i] !in CurrencyMarks
    ensures Translate(Currency, s) == s
  {
    CurrencyMarked();
    UnmarkedUnchanged(Currency, s, CurrencyMarks);
  }

  /** A piece without accented Latin letters is left alone by the accent pass. */
  lemma {:induction false} AccentsOutside(s: string)
    requires forall i :: 0 <= i < |s| ==> s[i] < '\U{00C0}' || '\U{01FF}' < s[i]
    ensures Image(Accents, s) == s
  {
    AccentKeys();
    OutsideIdle(Accents, '\U{00C0}', '\U{01FF}', s);
  }

  /** A piece without Cyrillic letters is left alone by the Cyrillic pass. */
  lemma {:induction false} CyrillicOutside(s: string)
    requires forall i :: 0 <= i < |s| ==> s[i] < '\U{0400}' || '\U{04FF}' < s[i]
    ensures Image(Cyrillic, s) == s
  {
    CyrillicKeys();
    OutsideIdle(Cyrillic, '\U{0400}', '\U{04FF}', s);
  }

  /** A single trailing dot after a piece that neither begins nor ends with '/' or '.' is trimmed. */
  lemma {:induction false} DotAfter(r: string)
    requires r != [] && r[0] !in {'/', '.'} && r[|r| - 1] !in {'/', '.'}
    ensures TrimSlashesThenDots(r + ".") == r
  {
    var f := r + ".";
    assert f[|f| - 1] == '.' && f[|f| - 2] == r[|r| - 1] && f[0] == r[0];
    TrailingDot(f);
    assert f[..|f| - 1] == r;
  }

  /** An input that neither begins nor ends with whitespace, and is not "0", is neither falsy nor trimmed. */
  lemma {:induction false} UntrimmedInput(s: string)
    requires |s| > 1 && s[0] !in Whitespace && s[|s| - 1] !in Whitespace
    ensures !IsFalsy(Some(s)) && Trim(s) == s
  {
    TrimLeftStops(s, Whitespace);
    TrimRightStops(s, Whitespace);
  }
}
