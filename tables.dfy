/**
 * The replacement arrays `url()` hands to `strtr`. Keys that begin with a capital
 * letter are kept although they can never match text that has been lowered.
 */
module Tables {
  import opened Strtr
  import opened Regex

  /** Currency symbols and abbreviations and their codes (src/Sanitizer.php:68-72). */
  const Currency: Table := map[
    "؋" := "lek", "bz$" := "all", "$b" := "bob", "лв" := "bgn-kzt-kgs", "r$" := "brl", "៛" := "khr",
    "¥" := "cny-jpy", "₡" := "crc", "₱" := "cup-php", "rd$" := "dop", "£" := "gbp", "€" := "eur",
    "¢" := "ghc", "﷼" := "irr-omr-qar-sar-yer", "₪" := "ils", "j$" := "jmd", "₩" := "kpw-krw", "₭" := "lak",
    "ден" := "mkd", "₮" := "mnt", "c$" := "nio", "₦" := "ngn", "zł" := "pln", "руб" := "rub",
    "Дин." := "rsd", "nt$" := "twd", "฿" := "thb", "tt$" := "ttd", "₴" := "uah", "$u" := "uyu",
    "₫" := "vnd", "z$" := "zwd", "$" := "usd"]

  /**
   * Accented Latin letters and their plain spellings (src/Sanitizer.php:75-94). The array is
   * written here as the union of seven pieces of at most 33 pairs, in the order of the source,
   * so that a fact about all its keys can be checked piece by piece; the keys of the pieces
   * are disjoint, so the union is the array.
   */
  const Accents: Table := Accents1 + Accents2 + Accents3 + Accents4 + Accents5 + Accents6 + Accents7

  /** Accented Latin letters, src/Sanitizer.php:75-77. */
  const Accents1: Table := map[
    "À" := "A", "Á" := "A", "Â" := "A", "Ã" := "A", "Ä" := "A", "Å" := "A", "Æ" := "AE", "Ç" := "C", "È" := "E", "É" := "E", "Ê" := "E",
    "Ë" := "E", "Ì" := "I", "Í" := "I", "Î" := "I", "Ï" := "I", "Ð" := "D", "Ñ" := "N", "Ò" := "O", "Ó" := "O", "Ô" := "O", "Õ" := "O",
    "Ö" := "O", "Ø" := "O", "Ù" := "U", "Ú" := "U", "Û" := "U", "Ü" := "U", "Ý" := "Y", "ß" := "ss"]

  /** Accented Latin letters, src/Sanitizer.php:78-80. */
  const Accents2: Table := map[
    "à" := "a", "á" := "a", "â" := "a", "ã" := "a", "ä" := "a", "å" := "a", "æ" := "ae", "ç" := "c", "è" := "e", "é" := "e", "ê" := "e",
    "ë" := "e", "ì" := "i", "í" := "i", "î" := "i", "ï" := "i", "ñ" := "n", "ò" := "o", "ó" := "o", "ô" := "o", "õ" := "o", "ö" := "o",
    "ø" := "o", "ù" := "u", "ú" := "u", "û" := "u", "ü" := "u", "ý" := "y", "ÿ" := "y", "Ā" := "A", "ā" := "a", "Ă" := "A", "ă" := "a"]

  /** Accented Latin letters, src/Sanitizer.php:81-83. */
  const Accents3: Table := map[
    "Ą" := "A", "ą" := "a", "Ć" := "C", "ć" := "c", "Ĉ" := "C", "ĉ" := "c", "Ċ" := "C", "ċ" := "c", "Č" := "C", "č" := "c", "Ď" := "D",
    "ď" := "d", "Đ" := "DZ", "đ" := "dz", "Ē" := "E", "ē" := "e", "Ĕ" := "E", "ĕ" := "e", "Ė" := "E", "ė" := "e", "Ę" := "E", "ę" := "e",
    "Ě" := "E", "ě" := "e", "Ĝ" := "G", "ĝ" := "g", "Ğ" := "G", "ğ" := "g", "Ġ" := "G", "ġ" := "g", "Ģ" := "G", "ģ" := "g", "Ĥ" := "H"]

  /** Accented Latin letters, src/Sanitizer.php:84-86. */
  const Accents4: Table := map[
    "ĥ" := "h", "Ħ" := "H", "ħ" := "h", "Ĩ" := "I", "ĩ" := "i", "Ī" := "I", "ī" := "i", "Ĭ" := "I", "ĭ" := "i", "Į" := "I", "į" := "i",
    "İ" := "I", "ı" := "i", "Ĳ" := "IJ", "ĳ" := "ij", "Ĵ" := "J", "ĵ" := "j", "Ķ" := "K", "ķ" := "k", "Ĺ" := "L", "ĺ" := "l", "Ļ" := "L",
    "ļ" := "l", "Ľ" := "L", "ľ" := "l", "Ŀ" := "L", "ŀ" := "l", "Ł" := "l", "ł" := "l", "Ń" := "N", "ń" := "n", "Ņ" := "N", "ņ" := "n"]

  /** Accented Latin letters, src/Sanitizer.php:87-89. */
  const Accents5: Table := map[
    "Ň" := "N", "ň" := "n", "ŉ" := "n", "Ō" := "O", "ō" := "o", "Ŏ" := "O", "ŏ" := "o", "Ő" := "O", "ő" := "o", "Œ" := "OE", "œ" := "oe",
    "Ŕ" := "R", "ŕ" := "r", "Ŗ" := "R", "ŗ" := "r", "Ř" := "R", "ř" := "r", "Ś" := "S", "ś" := "s", "Ŝ" := "S", "ŝ" := "s", "Ş" := "S",
    "ş" := "s", "Š" := "S", "š" := "s", "Ţ" := "T", "ţ" := "t", "Ť" := "T", "ť" := "t", "Ŧ" := "T", "ŧ" := "t", "Ũ" := "U", "ũ" := "u"]

  /** Accented Latin letters, src/Sanitizer.php:90-92. */
  const Accents6: Table := map[
    "Ū" := "U", "ū" := "u", "Ŭ" := "U", "ŭ" := "u", "Ů" := "U", "ů" := "u", "Ű" := "U", "ű" := "u", "Ų" := "U", "ų" := "u", "Ŵ" := "W",
    "ŵ" := "w", "Ŷ" := "Y", "ŷ" := "y", "Ÿ" := "Y", "Ź" := "Z", "ź" := "z", "Ż" := "Z", "ż" := "z", "Ž" := "Z", "ž" := "z", "ſ" := "s",
    "ƒ" := "f", "Ơ" := "O", "ơ" := "o", "Ư" := "U", "ư" := "u", "Ǎ" := "A", "ǎ" := "a", "Ǐ" := "I", "ǐ" := "i", "Ǒ" := "O", "ǒ" := "o"]

  /** Accented Latin letters, src/Sanitizer.php:93-94. */
  const Accents7: Table := map[
    "Ǔ" := "U", "ǔ" := "u", "Ǖ" := "U", "ǖ" := "u", "Ǘ" := "U", "ǘ" := "u", "Ǚ" := "U", "ǚ" := "u", "Ǜ" := "U", "ǜ" := "u", "Ǻ" := "A",
    "ǻ" := "a", "Ǽ" := "AE", "ǽ" := "ae", "Ǿ" := "O", "ǿ" := "o"]

  /** Cyrillic letters and their Latin transliterations (src/Sanitizer.php:97-116), in seven pieces like `Accents`. */
  const Cyrillic: Table := Cyrillic1 + Cyrillic2 + Cyrillic3 + Cyrillic4 + Cyrillic5 + Cyrillic6 + Cyrillic7

  /** Cyrillic letters, src/Sanitizer.php:97-99. */
  const Cyrillic1: Table := map[
    "А" := "A", "Ӑ" := "A", "Ӓ" := "A", "Ә" := "E", "Ӛ" := "E", "Ӕ" := "AE", "Б" := "B", "В" := "V", "Г" := "G", "Ґ" := "G", "Ѓ" := "G",
    "Ғ" := "G", "Ӷ" := "G", "Ҕ" := "G", "Д" := "D", "Ђ" := "D", "Е" := "E", "Ѐ" := "E", "Ё" := "E", "Ӗ" := "E", "Ҽ" := "E", "Ҿ" := "E",
    "Є" := "E", "Ж" := "Z", "Ӂ" := "Z", "Җ" := "Z", "Ӝ" := "Z", "З" := "Z", "Ҙ" := "Z", "Ӟ" := "Z"]

  /** Cyrillic letters, src/Sanitizer.php:100-102. */
  const Cyrillic2: Table := map[
    "Ӡ" := "DZ", "Ѕ" := "DZ", "И" := "I", "Ѝ" := "I", "Ӥ" := "I", "Ӣ" := "I", "І" := "I", "Ї" := "I", "Ӏ" := "I", "Й" := "J", "Ҋ" := "J",
    "Ј" := "J", "К" := "K", "Қ" := "K", "Ҟ" := "K", "Ҡ" := "K", "Ӄ" := "K", "Ҝ" := "K", "Л" := "L", "Ӆ" := "L", "Љ" := "LJ", "М" := "M",
    "Ӎ" := "M", "Н" := "N", "Ӊ" := "H", "Ң" := "H", "Ӈ" := "H", "Ҥ" := "EH", "Њ" := "NJ", "О" := "O", "Ӧ" := "O", "Ө" := "O", "Ӫ" := "O"]

  /** Cyrillic letters, src/Sanitizer.php:103-105. */
  const Cyrillic3: Table := map[
    "Ҩ" := "O", "П" := "P", "Ҧ" := "PE", "Р" := "R", "Ҏ" := "R", "С" := "S", "Ҫ" := "S", "Т" := "T", "Ҭ" := "T", "Ћ" := "C", "Ќ" := "V",
    "У" := "U", "Ў" := "U", "Ӳ" := "U", "Ӱ" := "U", "Ӯ" := "U", "Ү" := "Y", "Ұ" := "Y", "Ф" := "F", "Х" := "H", "Ҳ" := "X", "Һ" := "H",
    "Ц" := "C", "Ҵ" := "C", "Ч" := "C", "Ӵ" := "C", "Ҷ" := "Y", "Ӌ" := "Y", "Ҹ" := "Y", "Џ" := "DZ", "Ш" := "S", "Щ" := "S", "Ъ" := "Y"]

  /** Cyrillic letters, src/Sanitizer.php:106-108. */
  const Cyrillic4: Table := map[
    "Ы" := "Y", "Ӹ" := "Y", "Ь" := "Y", "Ҍ" := "Y", "Э" := "E", "Ӭ" := "E", "Ю" := "U", "Я" := "a", "а" := "a", "ӑ" := "a", "ӓ" := "a",
    "ә" := "e", "ӛ" := "e", "ӕ" := "ae", "б" := "b", "в" := "v", "г" := "g", "ґ" := "g", "ѓ" := "g", "ғ" := "g", "ӷ" := "g", "ҕ" := "g",
    "д" := "d", "ђ" := "d", "е" := "e", "ѐ" := "e", "ё" := "e", "ӗ" := "e", "ҽ" := "e", "ҿ" := "e", "є" := "e", "ж" := "z", "ӂ" := "z"]

  /** Cyrillic letters, src/Sanitizer.php:109-111. */
  const Cyrillic5: Table := map[
    "җ" := "z", "ӝ" := "z", "з" := "z", "ҙ" := "z", "ӟ" := "z", "ӡ" := "dz", "ѕ" := "dz", "и" := "i", "ѝ" := "i", "ӥ" := "i", "ӣ" := "i",
    "і" := "i", "ї" := "i", "й" := "j", "ҋ" := "j", "ј" := "j", "к" := "k", "қ" := "k", "ҟ" := "k", "ҡ" := "k", "ӄ" := "k", "ҝ" := "k",
    "л" := "l", "ӆ" := "l", "љ" := "lj", "м" := "m", "ӎ" := "m", "н" := "n", "ӊ" := "h", "ң" := "h", "ӈ" := "h", "ҥ" := "eh", "њ" := "nj"]

  /** Cyrillic letters, src/Sanitizer.php:112-114. */
  const Cyrillic6: Table := map[
    "о" := "o", "ӧ" := "o", "ө" := "o", "ӫ" := "o", "ҩ" := "o", "п" := "p", "ҧ" := "pe", "р" := "r", "ҏ" := "r", "с" := "s", "ҫ" := "s",
    "т" := "t", "ҭ" := "t", "ћ" := "c", "ќ" := "k", "у" := "u", "ў" := "u", "ӳ" := "u", "ӱ" := "u", "ӯ" := "u", "ү" := "y", "ұ" := "y",
    "ф" := "f", "х" := "h", "ҳ" := "x", "һ" := "h", "ц" := "c", "ҵ" := "c", "ч" := "c", "ӵ" := "c", "ҷ" := "y", "ӌ" := "y", "ҹ" := "y"]

  /** Cyrillic letters, src/Sanitizer.php:115-116. */
  const Cyrillic7: Table := map[
    "џ" := "dz", "ш" := "s", "щ" := "s", "ъ" := "y", "ы" := "y", "ӹ" := "y", "ь" := "y", "ҍ" := "y", "э" := "e", "ӭ" := "e", "ю" := "u",
    "я" := "a"]

  /**
   * Reserved and unsafe characters (src/Sanitizer.php:119-120). The PHP keys '\r\n' and '\n' are
   * single-quoted, so they are the four- and two-character texts backslash-r-backslash-n and
   * backslash-n, not line breaks.
   */
  const Reserved: Table := map[
    " " := "-", "%20" := "-", "&nbsp;" := "-", "&" := "-", "+" := "-", "," := "-",
    "//" := "-", " /" := "-", "\\r\\n" := "-", "\\n" := "-", "-/-" := "/"]

  /** The second `strtr` pass after the regular expressions (src/Sanitizer.php:132). */
  const SlashJoin: Table := map["-/-" := "/"]

  /** Every key of `t` is a single character between `lo` and `hi`. */
  predicate CharKeysWithin(t: Table, lo: char, hi: char) {
    forall k :: k in t ==> |k| == 1 && lo <= k[0] <= hi
  }

  /** The union of two tables whose keys lie in a range has its keys in the range. */
  lemma UnionWithin(a: Table, b: Table, lo: char, hi: char)
    requires CharKeysWithin(a, lo, hi) && CharKeysWithin(b, lo, hi)
    ensures CharKeysWithin(a + b, lo, hi)
  {
  }

  /** The union of seven tables whose keys are single characters in a range has its keys in the range. */
  lemma SevenWithin(a1: Table, a2: Table, a3: Table, a4: Table, a5: Table, a6: Table, a7: Table, lo: char, hi: char)
    requires CharKeysWithin(a1, lo, hi) && CharKeysWithin(a2, lo, hi) && CharKeysWithin(a3, lo, hi)
    requires CharKeysWithin(a4, lo, hi) && CharKeysWithin(a5, lo, hi) && CharKeysWithin(a6, lo, hi)
    requires CharKeysWithin(a7, lo, hi)
    ensures CharKeysWithin(a1 + a2 + a3 + a4 + a5 + a6 + a7, lo, hi)
    ensures SingleCharKeys(a1 + a2 + a3 + a4 + a5 + a6 + a7)
  {
    UnionWithin(a1, a2, lo, hi);
    UnionWithin(a1 + a2, a3, lo, hi);
    UnionWithin(a1 + a2 + a3, a4, lo, hi);
    UnionWithin(a1 + a2 + a3 + a4, a5, lo, hi);
    UnionWithin(a1 + a2 + a3 + a4 + a5, a6, lo, hi);
    UnionWithin(a1 + a2 + a3 + a4 + a5 + a6, a7, lo, hi);
  }

  /** Every key of `t` begins or ends with a character the whitelist deletes. */
  predicate KeysNotSlug(t: Table) {
    forall k :: k in t ==> k != [] && (!IsSlugChar(k[0]) || !IsSlugChar(k[|k| - 1]))
  }

  /** Every currency key begins or ends with a character the whitelist deletes. */
  lemma CurrencyKeysNotSlug()
    ensures KeysNotSlug(Currency)
  {
    CurrencyKeyEnds();
    EndsNotSlug(Currency);
  }

  /** A key that begins or ends with '$' or with a character past 'z' is not whitelisted. */
  lemma EndsNotSlug(t: Table)
    requires forall k :: k in t ==>
      k != [] && (k[0] == '$' || k[0] > 'z' || k[|k| - 1] == '$' || k[|k| - 1] > 'z')
    ensures KeysNotSlug(t)
  {
  }

  /** Every currency key begins or ends with '$' or with a character past 'z'. */
  lemma CurrencyKeyEnds()
    ensures forall k :: k in Currency ==>
      k != [] && (k[0] == '$' || k[0] > 'z' || k[|k| - 1] == '$' || k[|k| - 1] > 'z')
  {
    CurrencyShapes();
  }

  /** Every reserved key except "//" and "-/-" begins with a character the whitelist deletes. */
  lemma ReservedKeysNotSlug()
    ensures forall k :: k in Reserved ==> k == "//" || k == "-/-" || (k != [] && !IsSlugChar(k[0]))
  {
  }

  /** Single-character keys past 'z' are not whitelisted. */
  lemma CharKeysNotSlug(t: Table, lo: char, hi: char)
    requires CharKeysWithin(t, lo, hi) && lo > 'z'
    ensures KeysNotSlug(t)
  {
  }

  /** A narrower range is within a wider one. */
  lemma Widen(t: Table, lo: char, hi: char, lo': char, hi': char)
    requires CharKeysWithin(t, lo, hi) && lo' <= lo && hi <= hi'
    ensures CharKeysWithin(t, lo', hi')
  {
  }

  lemma Accents1Keys()
    ensures CharKeysWithin(Accents1, '\U{00C0}', '\U{00DF}')
  {
  }

  lemma Accents2Keys()
    ensures CharKeysWithin(Accents2, '\U{00E0}', '\U{0103}')
  {
  }

  lemma Accents3Keys()
    ensures CharKeysWithin(Accents3, '\U{0104}', '\U{0124}')
  {
  }

  lemma Accents4Keys()
    ensures CharKeysWithin(Accents4, '\U{0125}', '\U{0146}')
  {
  }

  lemma Accents5Keys()
    ensures CharKeysWithin(Accents5, '\U{0147}', '\U{0169}')
  {
  }

  lemma Accents6Keys()
    ensures CharKeysWithin(Accents6, '\U{016A}', '\U{01D2}')
  {
  }

  lemma Accents7Keys()
    ensures CharKeysWithin(Accents7, '\U{01D3}', '\U{01FF}')
  {
  }

  lemma Cyrillic1Keys()
    ensures CharKeysWithin(Cyrillic1, '\U{0400}', '\U{04FF}')
  {
  }

  lemma Cyrillic2Keys()
    ensures CharKeysWithin(Cyrillic2, '\U{0400}', '\U{04FF}')
  {
  }

  lemma Cyrillic3Keys()
    ensures CharKeysWithin(Cyrillic3, '\U{0400}', '\U{04FF}')
  {
  }

  lemma Cyrillic4Keys()
    ensures CharKeysWithin(Cyrillic4, '\U{0400}', '\U{04FF}')
  {
  }

  lemma Cyrillic5Keys()
    ensures CharKeysWithin(Cyrillic5, '\U{0400}', '\U{04FF}')
  {
  }

  lemma Cyrillic6Keys()
    ensures CharKeysWithin(Cyrillic6, '\U{0400}', '\U{04FF}')
  {
  }

  lemma Cyrillic7Keys()
    ensures CharKeysWithin(Cyrillic7, '\U{0400}', '\U{04FF}')
  {
  }

  /** Every accent key is one character between U+00C0 and U+01FF. */
  lemma AccentKeys()
    ensures SingleCharKeys(Accents)
    ensures CharKeysWithin(Accents, '\U{00C0}', '\U{01FF}')
  {
    AccentsLowWithin();
    AccentsHighWithin();
    SevenWithin(Accents1, Accents2, Accents3, Accents4, Accents5, Accents6, Accents7, '\U{00C0}', '\U{01FF}');
  }

  lemma AccentsLowWithin()
    ensures CharKeysWithin(Accents1, '\U{00C0}', '\U{01FF}')
    ensures CharKeysWithin(Accents2, '\U{00C0}', '\U{01FF}')
    ensures CharKeysWithin(Accents3, '\U{00C0}', '\U{01FF}')
    ensures CharKeysWithin(Accents4, '\U{00C0}', '\U{01FF}')
  {
    Accents1Keys();
    Widen(Accents1, '\U{00C0}', '\U{00DF}', '\U{00C0}', '\U{01FF}');
    Accents2Keys();
    Widen(Accents2, '\U{00E0}', '\U{0103}', '\U{00C0}', '\U{01FF}');
    Accents3Keys();
    Widen(Accents3, '\U{0104}', '\U{0124}', '\U{00C0}', '\U{01FF}');
    Accents4Keys();
    Widen(Accents4, '\U{0125}', '\U{0146}', '\U{00C0}', '\U{01FF}');
  }

  lemma AccentsHighWithin()
    ensures CharKeysWithin(Accents5, '\U{00C0}', '\U{01FF}')
    ensures CharKeysWithin(Accents6, '\U{00C0}', '\U{01FF}')
    ensures CharKeysWithin(Accents7, '\U{00C0}', '\U{01FF}')
  {
    Accents5Keys();
    Widen(Accents5, '\U{0147}', '\U{0169}', '\U{00C0}', '\U{01FF}');
    Accents6Keys();
    Widen(Accents6, '\U{016A}', '\U{01D2}', '\U{00C0}', '\U{01FF}');
    Accents7Keys();
    Widen(Accents7, '\U{01D3}', '\U{01FF}', '\U{00C0}', '\U{01FF}');
  }

  /** Every Cyrillic key is one character between U+0400 and U+04FF. */
  lemma CyrillicKeys()
    ensures SingleCharKeys(Cyrillic)
    ensures CharKeysWithin(Cyrillic, '\U{0400}', '\U{04FF}')
  {
    Cyrillic1Keys();
    Cyrillic2Keys();
    Cyrillic3Keys();
    Cyrillic4Keys();
    Cyrillic5Keys();
    Cyrillic6Keys();
    Cyrillic7Keys();
    SevenWithin(Cyrillic1, Cyrillic2, Cyrillic3, Cyrillic4, Cyrillic5, Cyrillic6, Cyrillic7, '\U{0400}', '\U{04FF}');
  }

  /** No currency key is longer than four characters, no reserved key longer than six. */
  lemma KeyLengths()
    ensures KeysAtMost(Currency, 4) && KeysAtMost(Reserved, 6)
  {
    CurrencyKeyLengths();
    ReservedKeyLengths();
  }

  lemma CurrencyKeyLengths()
    ensures forall k :: k in Currency ==> k != [] && |k| <= 4
  {
    CurrencyShapes();
  }

  /** The keys of the currency table, one set per line of the source array (src/Sanitizer.php:68-72). */
  const CurrencyLine1: set<string> := {"؋", "bz$", "$b", "лв", "r$"}
  const CurrencyLine2: set<string> := {"៛", "¥", "₡", "₱", "rd$", "£", "€", "¢"}
  const CurrencyLine3: set<string> := {"﷼", "₪", "j$", "₩", "₭", "ден", "₮"}
  const CurrencyLine4: set<string> := {"c$", "₦", "zł", "руб", "Дин.", "nt$", "฿", "tt$"}
  const CurrencyLine5: set<string> := {"₴", "$u", "₫", "z$", "$"}

  lemma CurrencyKeys()
    ensures Currency.Keys == CurrencyLine1 + CurrencyLine2 + CurrencyLine3 + CurrencyLine4 + CurrencyLine5
  {
  }

  /**
   * What the proofs about currency keys need of each key: it is one to four characters long,
   * begins or ends with '$' or a character past 'z' and with one of `CurrencyMarks`, and its
   * characters are heads and tails as `CurrencyHeads` and `CurrencyTails` say.
   */
  ghost predicate CurrencyKeyShape(k: string) {
    && k != [] && |k| <= 4
    && (k[0] == '$' || k[0] > 'z' || k[|k| - 1] == '$' || k[|k| - 1] > 'z')
    && (k[0] in CurrencyMarks || k[|k| - 1] in CurrencyMarks)
    && (|k| == 1 ==> k[0] in CurrencyMarks)
    && (forall i :: 0 <= i < |k| - 1 ==> k[i] in CurrencyHeads)
    && (forall i :: 0 < i < |k| ==> k[i] in CurrencyTails)
  }

  lemma CurrencyLine1Shapes()
    ensures forall k :: k in CurrencyLine1 ==> CurrencyKeyShape(k)
  {
  }

  lemma CurrencyLine2Shapes()
    ensures forall k :: k in CurrencyLine2 ==> CurrencyKeyShape(k)
  {
  }

  lemma CurrencyLine3Shapes()
    ensures forall k :: k in CurrencyLine3 ==> CurrencyKeyShape(k)
  {
  }

  lemma CurrencyLine4Shapes()
    ensures forall k :: k in CurrencyLine4 ==> CurrencyKeyShape(k)
  {
  }

  lemma CurrencyLine5Shapes()
    ensures forall k :: k in CurrencyLine5 ==> CurrencyKeyShape(k)
  {
  }

  lemma CurrencyShapes()
    ensures forall k :: k in Currency ==> CurrencyKeyShape(k)
  {
    CurrencyKeys();
    CurrencyLine1Shapes();
    CurrencyLine2Shapes();
    CurrencyLine3Shapes();
    CurrencyLine4Shapes();
    CurrencyLine5Shapes();
  }

  lemma ReservedKeyLengths()
    ensures forall k :: k in Reserved ==> |k| <= 6
  {
  }

  /** The pairs of the currency table that involve "$" alone or at the end of an abbreviation. */
  lemma DollarEntries()
    ensures "rd$" in Currency && Currency["rd$"] == "dop"
    ensures "$u" in Currency && Currency["$u"] == "uyu"
    ensures "$" in Currency && Currency["$"] == "usd"
  {
  }

  /** "rd$" is replaced as a whole: the longer key wins over "$", giving "dop" and not "rdusd". */
  lemma DopBeatsDollar(rest: string)
    ensures Translate(Currency, "rd$" + rest) == "dop" + Translate(Currency, rest)
  {
    var s := "rd$" + rest;
    assert "rd$" <= s && s[3..] == rest;
    NoLongerDop(s);
    DollarEntries();
    CurrencyKeyLengths();
    ReplacesKeyUpTo(Currency, s, "rd$", 4);
  }

  /** No currency key is a longer prefix of a string beginning "rd$". */
  lemma NoLongerDop(s: string)
    requires "rd$" <= s
    ensures forall m :: 3 < m <= 4 && m <= |s| ==> s[..m] !in Currency
  {
    if |s| >= 4 { assert s[..4][0] == 'r'; }
  }

  /** "$u" is replaced as a whole by "uyu". */
  lemma UyuBeatsDollar(rest: string)
    ensures Translate(Currency, "$u" + rest) == "uyu" + Translate(Currency, rest)
  {
    var s := "$u" + rest;
    assert "$u" <= s && s[2..] == rest;
    NoLongerUyu(s);
    DollarEntries();
    CurrencyKeyLengths();
    ReplacesKeyUpTo(Currency, s, "$u", 4);
  }

  /** No currency key is a longer prefix of a string beginning "$u". */
  lemma NoLongerUyu(s: string)
    requires "$u" <= s
    ensures forall m :: 2 < m <= 4 && m <= |s| ==> s[..m] !in Currency
  {
    forall m | 2 < m <= 4 && m <= |s|
      ensures s[..m] !in Currency
    {
      assert s[..m][0] == '$';
    }
  }

  /** The only currency keys that begin with "$" are "$", "$u" and "$b". */
  lemma NoLongerDollar(s: string, rest: string)
    requires s == "$" + rest && !("u" <= rest) && !("b" <= rest)
    ensures forall m :: 1 < m <= 4 && m <= |s| ==> s[..m] !in Currency
  {
    forall m | 1 < m <= 4 && m <= |s|
      ensures s[..m] !in Currency
    {
      assert s[..m][0] == '$' && s[..m][1] == rest[0];
      assert rest[0] != 'u' && rest[0] != 'b' by { assert [rest[0]] == rest[..1]; }
    }
  }

  /** A "$" that does not begin "$u" or "$b" becomes "usd". */
  lemma LoneDollar(rest: string)
    requires !("u" <= rest) && !("b" <= rest)
    ensures Translate(Currency, "$" + rest) == "usd" + Translate(Currency, rest)
  {
    NoLongerDollar("$" + rest, rest);
    DollarEntries();
    CurrencyKeyLengths();
    ReplacesKeyBefore(Currency, "$", rest, 4);
  }

  /** The test cases of the currency table. */
  lemma CurrencyExamples()
    ensures Translate(Currency, "rd$") == "dop"
    ensures Translate(Currency, "$u") == "uyu"
    ensures Translate(Currency, "$") == "usd"
  {
    DopBeatsDollar("");
    UyuBeatsDollar("");
    LoneDollar("");
    assert "rd$" + "" == "rd$" && "$u" + "" == "$u" && "$" + "" == "$";
  }

  /** " /" is replaced as a whole: it wins over " ", so the slash goes too. */
  lemma SpaceSlashBeatsSpace(rest: string)
    ensures Translate(Reserved, " /" + rest) == "-" + Translate(Reserved, rest)
  {
    var s := " /" + rest;
    assert s[..2] == " /" && s[2..] == rest;
    forall m | 2 < m <= 6 && m <= |s|
      ensures s[..m] !in Reserved
    {
      assert s[..m][0] == s[0] && s[..m][1] == s[1];
    }
  }

  /** "//" is replaced as a whole by one hyphen. */
  lemma DoubleSlash(rest: string)
    ensures Translate(Reserved, "//" + rest) == "-" + Translate(Reserved, rest)
  {
    var s := "//" + rest;
    assert s[..2] == "//" && s[2..] == rest;
    forall m | 2 < m <= 6 && m <= |s|
      ensures s[..m] !in Reserved
    {
      assert s[..m][0] == s[0] && s[..m][1] == s[1];
    }
  }

  /** A space not followed by '/' becomes a hyphen. */
  lemma LoneSpace(rest: string)
    requires rest == [] || rest[0] != '/'
    ensures Translate(Reserved, " " + rest) == "-" + Translate(Reserved, rest)
  {
    NoLongerSpace(" " + rest, rest);
    assert " " in Reserved && Reserved[" "] == "-";
    ReservedKeyLengths();
    ReplacesKeyBefore(Reserved, " ", rest, 6);
  }

  /** The only reserved keys that begin with a space are " " and " /". */
  lemma NoLongerSpace(s: string, rest: string)
    requires s == " " + rest && (rest == [] || rest[0] != '/')
    ensures forall m :: 1 < m <= 6 && m <= |s| ==> s[..m] !in Reserved
  {
    forall m | 1 < m <= 6 && m <= |s|
      ensures s[..m] !in Reserved
    {
      assert s[..m][0] == ' ' && s[..m][1] == rest[0];
    }
  }

  /**
   * Each reserved key on its own becomes a hyphen, except "-/-", which becomes a slash: the
   * spellings of a space, the punctuation, "//", " /" and the literal texts `\r\n` and `\n`.
   */
  lemma ReservedKeysAlone()
    ensures forall k :: k in Reserved ==> Translate(Reserved, k) == if k == "-/-" then "/" else "-"
  {
    forall k | k in Reserved
      ensures Translate(Reserved, k) == if k == "-/-" then "/" else "-"
    {
      ReservedValues();
      WholeKey(Reserved, k);
    }
  }

  /** Every reserved value is "-" but that of "-/-", which is "/". */
  lemma ReservedValues()
    ensures forall k :: k in Reserved ==> k != [] && Reserved[k] == if k == "-/-" then "/" else "-"
  {
  }

  /** One character of every currency key, at its start or its end. */
  const CurrencyMarks: set<char> := {'$', '¢', '£', '¥', 'ł', 'Д', 'б', 'л', 'д', '؋', '฿', '៛', '₡', '₦', '₩', '₪', '₫', '€', '₭', '₮', '₱', '₴', '﷼'}

  /** The characters of currency keys that are followed by another one within the key. */
  const CurrencyHeads: set<char> := {'$', 'b', 'c', 'd', 'j', 'n', 'r', 't', 'z', 'Д', 'д', 'е', 'и', 'л', 'н', 'р', 'у'}

  /** The characters of currency keys that follow another one within the key. */
  const CurrencyTails: set<char> := {'$', '.', 'b', 'd', 't', 'u', 'z', 'ł', 'б', 'в', 'е', 'и', 'н', 'у'}

  /** Every currency key begins or ends with one of `CurrencyMarks`. */
  lemma CurrencyMarked()
    ensures EndsMarked(Currency, CurrencyMarks)
  {
    CurrencyKeyLengths();
    CurrencySymbolsMarked();
    CurrencyAbbreviationsMarked();
  }

  /** The one-character currency keys are marks themselves. */
  lemma CurrencySymbolsMarked()
    ensures forall k :: k in Currency && |k| == 1 ==> k[0] in CurrencyMarks
  {
    CurrencyShapes();
  }

  /** The longer currency keys begin or end with a mark. */
  lemma CurrencyAbbreviationsMarked()
    ensures forall k :: k in Currency && |k| > 1 ==> k[0] in CurrencyMarks || k[|k| - 1] in CurrencyMarks
  {
    CurrencyShapes();
  }

  /** The adjacent pairs within currency keys. */
  lemma CurrencyPairs()
    ensures PairsWithin(Currency, CurrencyHeads, CurrencyTails)
  {
    CurrencyHeadsWithin();
    CurrencyTailsWithin();
  }

  lemma CurrencyHeadsWithin()
    ensures forall k :: k in Currency ==> forall i :: 0 <= i < |k| - 1 ==> k[i] in CurrencyHeads
  {
    CurrencyShapes();
  }

  lemma CurrencyTailsWithin()
    ensures forall k :: k in Currency ==> forall i :: 0 < i < |k| ==> k[i] in CurrencyTails
  {
    CurrencyShapes();
  }

  /** The characters reserved keys begin with. */
  const ReservedFirsts: set<char> := {' ', '%', '&', '+', ',', '-', '/', '\\'}

  lemma ReservedStarts()
    ensures StartsWithin(Reserved, ReservedFirsts)
  {
  }

  /** A '/' not followed by another '/' is kept. */
  lemma LoneSlash(rest: string)
    requires rest == [] || rest[0] != '/'
    ensures Translate(Reserved, "/" + rest) == "/" + Translate(Reserved, rest)
  {
    var s := "/" + rest;
    assert s[0] == '/' && s[1..] == rest;
    assert forall k :: k in Reserved && k <= s ==> k == [] || k == "//";
    CopiesUnmatched(Reserved, s);
  }

  /** A '-' that does not begin "-/-" is kept. */
  lemma LoneHyphen(rest: string)
    requires !("/-" <= rest)
    ensures Translate(Reserved, "-" + rest) == "-" + Translate(Reserved, rest)
  {
    var s := "-" + rest;
    assert s[1..] == rest;
    assert s[..1] == "-";
    forall m | 1 < m <= 6 && m <= |s|
      ensures s[..m] !in Reserved
    {
      assert s[..m][0] == '-';
      if m == 3 { assert s[..3] == "-" + rest[..2]; }
    }
    ReservedKeyLengths();
    CopiesUpTo(Reserved, s, 6);
  }

  /** The literal text backslash-n becomes a hyphen. */
  lemma BackslashN(rest: string)
    ensures Translate(Reserved, "\\n" + rest) == "-" + Translate(Reserved, rest)
  {
    var s := "\\n" + rest;
    assert s[..2] == "\\n" && s[2..] == rest;
    forall m | 2 < m <= 6 && m <= |s|
      ensures s[..m] !in Reserved
    {
      assert s[..m][0] == s[0] && s[..m][1] == s[1];
    }
    ReservedKeyLengths();
    ReplacesKeyUpTo(Reserved, s, "\\n", 6);
  }

  /** A '-' that does not begin "-/-" is kept by the second pass. */
  lemma JoinHyphen(rest: string)
    requires !("/-" <= rest)
    ensures Translate(SlashJoin, "-" + rest) == "-" + Translate(SlashJoin, rest)
  {
    var s := "-" + rest;
    assert s[1..] == rest;
    assert s[..1] == "-";
    if |s| >= 2 { assert |s[..2]| == 2; }
    if |s| >= 3 { assert s[..3] == "-" + rest[..2]; }
    assert KeysAtMost(SlashJoin, 3);
    CopiesUpTo(SlashJoin, s, 3);
  }

  lemma JoinStarts()
    ensures StartsWithin(SlashJoin, {'-'})
  {
  }

  /** A table of single-character keys between `lo` and `hi` leaves a string without such characters unchanged. */
  lemma OutsideIdle(t: Table, lo: char, hi: char, s: string)
    requires CharKeysWithin(t, lo, hi)
    requires forall i :: 0 <= i < |s| ==> s[i] < lo || hi < s[i]
    ensures Image(t, s) == s
  {
    ImageIdle(t, s);
  }

  /** A space is a key of its own, replaced by a hyphen, and the only longer key it begins is " /". */
  lemma ReservedSpace()
    ensures " " in Reserved && Reserved[" "] == "-"
    ensures forall k :: k in Reserved && |k| > 1 && k[0] == ' ' ==> k[1] == '/'
  {
  }

  /**
   * Text made of spaces and of characters no reserved key begins with: each space becomes a
   * hyphen, everything else is kept, and the scan goes on after it unless a last space would
   * join a following '/' into " /".
   */
  lemma SpacesToHyphens(s: string, r: string, rest: string)
    requires |s| == |r|
    requires forall i :: 0 <= i < |s| ==> (s[i] == ' ' && r[i] == '-') || (s[i] !in ReservedFirsts && r[i] == s[i])
    requires s != [] && s[|s| - 1] == ' ' ==> rest == [] || rest[0] != '/'
    ensures Translate(Reserved, s + rest) == r + Translate(Reserved, rest)
  {
    ReservedSteps();
    SpacesToHyphensBy(x => Translate(Reserved, x), s, r, rest);
  }

  /** Each single step of the reserved pass on a space or on a character no key begins with. */
  lemma ReservedSteps()
    ensures forall c, out, tail :: SpaceStep(c, out, tail) ==> Translate(Reserved, [c] + tail) == [out] + Translate(Reserved, tail)
  {
    ReservedSpace();
    ReservedStarts();
    forall c, out, tail | SpaceStep(c, out, tail)
      ensures Translate(Reserved, [c] + tail) == [out] + Translate(Reserved, tail)
    {
      SpaceOrCopy(Reserved, c, out, tail);
    }
  }

  /** A space not followed by '/' gives a hyphen; a character no reserved key begins with gives itself. */
  predicate SpaceStep(c: char, out: char, tail: string) {
    (c == ' ' && out == '-' && (tail == [] || tail[0] != '/')) || (c !in ReservedFirsts && out == c)
  }

  /** `SpacesToHyphens` for any rewriting `f` that takes the same single steps. */
  lemma SpacesToHyphensBy(f: string -> string, s: string, r: string, rest: string)
    requires forall c, out, tail :: SpaceStep(c, out, tail) ==> f([c] + tail) == [out] + f(tail)
    requires |s| == |r|
    requires forall i :: 0 <= i < |s| ==> (s[i] == ' ' && r[i] == '-') || (s[i] !in ReservedFirsts && r[i] == s[i])
    requires s != [] && s[|s| - 1] == ' ' ==> rest == [] || rest[0] != '/'
    ensures f(s + rest) == r + f(rest)
  {
    forall i | 0 <= i < |s|
      ensures f(s[i..] + rest) == [r[i]] + f(s[i + 1..] + rest)
    {
      var tail := s[i + 1..] + rest;
      assert s[i..] + rest == [s[i]] + tail;
      if i + 1 < |s| {
        assert tail[0] == s[i + 1] && (s[i + 1] == ' ' || s[i + 1] !in ReservedFirsts);
      }
      assert SpaceStep(s[i], r[i], tail);
    }
    StepsCompose(f, s, r, rest);
  }

  /** One step of a table like the reserved one: a space becomes a hyphen, a character no key begins with is copied. */
  lemma SpaceOrCopy(t: Table, c: char, out: char, tail: string)
    requires StartsWithin(t, ReservedFirsts)
    requires " " in t && t[" "] == "-"
    requires forall k :: k in t && |k| > 1 && k[0] == ' ' ==> k[1] == '/'
    requires SpaceStep(c, out, tail)
    ensures Translate(t, [c] + tail) == [out] + Translate(t, tail)
  {
    if c == ' ' {
      assert [c] == " ";
      SingleKeyBefore(t, ' ', '/', tail);
    } else {
      CopiesWord(t, [c], tail, ReservedFirsts);
    }
  }

  /** A character outside the key range of a table of one-character keys maps to itself. */
  lemma OutsideImage(t: Table, lo: char, hi: char, c: char)
    requires CharKeysWithin(t, lo, hi) && (c < lo || hi < c)
    ensures CharImage(t, c) == [c]
  {
    assert [c][0] == c;
  }

  /** In a union of two tables, the right one wins where both have a key. */
  lemma UnionLookup(x: Table, y: Table, k: string)
    ensures k in y ==> k in x + y && (x + y)[k] == y[k]
    ensures k in x && k !in y ==> k in x + y && (x + y)[k] == x[k]
  {
  }

  /** The accent pass is the character-by-character map given by the accent table. */
  lemma AccentsPerCharacter(s: string)
    ensures Translate(Accents, s) == Image(Accents, s)
  {
    AccentKeys();
    PerCharacter(Accents, s);
  }

  /** The Cyrillic pass is the character-by-character map given by the Cyrillic table. */
  lemma CyrillicPerCharacter(s: string)
    ensures Translate(Cyrillic, s) == Image(Cyrillic, s)
  {
    CyrillicKeys();
    PerCharacter(Cyrillic, s);
  }

  /** No currency key holds `x` directly followed by `y` when `x` never comes first in a pair of a key. */
  lemma CurrencyJoint(x: char, y: char)
    requires x !in CurrencyHeads
    ensures NoKeyHolds(Currency, x, y)
  {
    CurrencyPairs();
    NoKeyHoldsOutside(Currency, CurrencyHeads, CurrencyTails, x, y);
  }

  /** No "-/-" spans a joint between two characters other than '-' and '/'. */
  lemma JoinJoint(x: char, y: char)
    requires x !in {'-', '/'} && y !in {'-', '/'}
    ensures NoKeyHolds(SlashJoin, x, y)
  {
    forall k | k in SlashJoin
      ensures !Holds(k, x, y)
    {
      assert k == "-/-";
    }
  }

  /** No reserved key holds two lowercase letters in a row, except "nb", "bs" and "sp" of "&nbsp;". */
  lemma ReservedJoint(x: char, y: char)
    requires 'a' <= x <= 'z' && 'a' <= y <= 'z'
    requires !(x == 'n' && y == 'b') && !(x == 'b' && y == 's') && !(x == 's' && y == 'p')
    ensures NoKeyHolds(Reserved, x, y)
  {
    forall k | k in Reserved
      ensures !Holds(k, x, y)
    {
      assert k in {" ", "%20", "&nbsp;", "&", "+", ",", "//", " /", "\\r\\n", "\\n", "-/-"};
    }
  }

  /** A whole piece of spaces and characters that begin no key. */
  lemma SpacesToHyphensAll(s: string, r: string)
    requires |s| == |r|
    requires forall i :: 0 <= i < |s| ==> (s[i] == ' ' && r[i] == '-') || (s[i] !in ReservedFirsts && r[i] == s[i])
    ensures Translate(Reserved, s) == r
  {
    SpacesToHyphens(s, r, []);
    assert s + [] == s && r + [] == r;
  }
}
