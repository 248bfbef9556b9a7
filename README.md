# Sanitizer::url, modelled in Dafny

`Sanitizer::url($string)` turns user input into a lowercase, hyphenated string that is safe
to put into a URL. When the input is falsy it returns null. Otherwise it makes a fixed chain
of whole-string rewrites:

1. `trim`, then `mb_strtolower`;
2. four `strtr` passes, in this order: currency symbols to ISO codes, accented Latin letters
   to plain ones, Cyrillic letters to Latin ones, and reserved characters to `-`;
3. one `preg_replace` with four patterns, in this order:
   - delete every character outside `[a-z0-9\-./]`;
   - collapse runs of `-`;
   - delete `<…>` tags;
   - collapse runs of `.`;
4. a `strtr` of `-/-` to `/`;
5. `ltrim`/`rtrim` of `/`, then of `.`;
6. a final `trim`.

The model follows the same structure, one module per concern:

- `Wrappers`: `Option`, which stands for PHP's `null|string`.
- `Text`: run-freedom ("no `cc`") and slicing facts.
- `Trims`: `ltrim`, `rtrim` and `trim`.
- `Strtr`: PHP's `strtr` with an array of pairs. At each position the longest key wins,
  replaced text is never scanned again, and unmatched characters are copied. It also holds
  the general laws of this function:
  - a string holding no key is unchanged;
  - splitting happens at boundaries no key straddles;
  - single-character tables act character by character;
  - runs are preserved.
- `Regex`: the four `preg_replace` patterns as functions.
- `Tables`: the five replacement arrays, copied from the source, and facts about their keys.
- `Sanitizer`: `url()` itself (`Url`), the pipeline after lowering (`Slug`), and the
  properties of the whole.
- `Letters`: the entries of the accent and Cyrillic tables that the test cases use.
- `Vectors`: the first and third cases of `testSanitizerUrl`, proved stage by stage on pieces of the input.

PHP's `mb_strtolower($s, "UTF-8")` is a parameter `lower` of `Url`. Lemmas that need its
value on a particular string take that value as a precondition.

## Model

| member | source | states |
|---|---|---|
| Sanitizer.Url | src/Sanitizer.php:60-140 | The result is null exactly for a falsy input (null, "" or "0"). Otherwise it is made only of `[a-z0-9\-./]`, has no "--" and no "..", and neither begins nor ends with '.'. |
| Sanitizer.IsFalsy | src/Sanitizer.php:62 | `!$string` holds for null, "" and "0" and for no other string. Url's contract states that these inputs, and only these, give null. |
| Sanitizer.Substitute | src/Sanitizer.php:67-120 | The four `strtr` passes in the source's order: currency, accents, Cyrillic, reserved characters. SubstituteIdle and the Vectors lemmas state what they do. |
| Sanitizer.Slug | src/Sanitizer.php:67-139 | After lowering, the pipeline yields a whitelisted string without "--" or "..", and without a dot at either end. |
| Sanitizer.Filter | src/Sanitizer.php:122-129 | The four regular expressions leave only whitelisted characters and no run of '-' or '.'. |
| Sanitizer.TrimEdges | src/Sanitizer.php:131-136 | After the "-/-" pass and the four trims, the string neither begins nor ends with '.'. |
| Sanitizer.TrimSlashesThenDots | src/Sanitizer.php:133-136 | After trimming slashes and then dots, the string neither begins nor ends with '.'. |
| Sanitizer.TrimSlashesThenDotsIdle | src/Sanitizer.php:133-136 | A string that neither begins nor ends with '/' or '.' is not changed by the four trims. |
| Sanitizer.LeadingDotSlash | src/Sanitizer.php:133-136 | For ".", then "/", then more, only the dot is trimmed: slashes are trimmed first. |
| Sanitizer.TrailingSlashDot | src/Sanitizer.php:133-136 | The same at the end: in "…/." only the dot is trimmed. |
| Sanitizer.LeadingSlash | src/Sanitizer.php:133 | A single leading '/' is trimmed. |
| Sanitizer.TrailingSlash | src/Sanitizer.php:134 | A single trailing '/' is trimmed. |
| Sanitizer.TrimEdgesKeeps | src/Sanitizer.php:132-136 | The edge clean-up keeps a string whitelisted and creates no run of any character but '/'. |
| Sanitizer.JoinKeeps | src/Sanitizer.php:132 | The "-/-" pass inserts only '/' and creates no run of any other character. |
| Sanitizer.TrimIdle | src/Sanitizer.php:139 | The final `trim` never changes anything, because no whitelisted character is whitespace. |
| Sanitizer.SubstituteIdle | src/Sanitizer.php:67-120 | A whitelisted string without "//" or "-/-" passes the four tables unchanged. |
| Sanitizer.NoSlugKeyIdle | src/Sanitizer.php:68-72 | A table each of whose keys begins or ends with a non-whitelisted character leaves a whitelisted string alone. |
| Sanitizer.CurrencyIdle | src/Sanitizer.php:68-72 | The currency pass leaves a whitelisted string alone. |
| Sanitizer.AccentsIdle | src/Sanitizer.php:75-94 | The accent pass leaves a whitelisted string alone. |
| Sanitizer.CyrillicIdle | src/Sanitizer.php:97-116 | The Cyrillic pass leaves a whitelisted string alone. |
| Sanitizer.ReservedIdle | src/Sanitizer.php:119-120 | The reserved pass leaves alone a whitelisted string without "//" or "-/-". |
| Sanitizer.TagStripIdle | src/Sanitizer.php:123-129 | The tag pattern never matches, because the whitelist has already deleted every '<'. |
| Sanitizer.FilterIdle | src/Sanitizer.php:122-129 | A whitelisted string without "--" or ".." passes the regular expressions unchanged. |
| Sanitizer.JoinIdle | src/Sanitizer.php:132 | A string without "-/-" passes the second "-/-" pass unchanged. |
| Sanitizer.CleanSlug | src/Sanitizer.php:67-139 | On a clean string, the pipeline after lowering only trims slashes and then dots from the ends. A clean string is whitelisted, with no "--", "..", "//" or "-/-". |
| Sanitizer.LeadingSlashSurvives | src/Sanitizer.php:131-136 | For a clean ".", then "/", then more, the result begins with '/'. Running it again gives something different, so `url()` is not idempotent. |
| Sanitizer.TrailingSlashSurvives | src/Sanitizer.php:131-136 | The same at the end: "…/." gives a result ending in '/', which a second run changes. |
| Sanitizer.CleanTail | src/Sanitizer.php:67-139 | A suffix of a clean string is clean. |
| Sanitizer.CleanHead | src/Sanitizer.php:67-139 | A prefix of a clean string is clean. |
| Sanitizer.CleanUrl | src/Sanitizer.php:60-140 | An input that is not falsy, trims to a clean string not starting or ending with '/' or '.', and is left alone by lowering, gives exactly that string. |
| Sanitizer.CleanSlugFixed | src/Sanitizer.php:67-139 | A clean string that neither begins nor ends with '/' or '.' is its own result. |
| Sanitizer.PaddedZero | src/Sanitizer.php:62-65 | "0" gives null, but " 0" gives "0": the falsy test comes before the trim. |
| Sanitizer.Blank | src/Sanitizer.php:62-65 | " " is not falsy, so it gives "" and not null. |
| Trims.TrimLeft | src/Sanitizer.php:133 | `ltrim` drops exactly the longest prefix made of listed characters. |
| Trims.TrimRight | src/Sanitizer.php:134 | `rtrim` drops exactly the longest suffix made of listed characters. |
| Trims.Trim | src/Sanitizer.php:65 | `trim` removes whitespace at both ends only. The result is a slice of the input with whitespace outside it, and a string without whitespace is unchanged. |
| Trims.TrimOneLeading | src/Sanitizer.php:65 | `trim` of a string with one leading whitespace character, and none elsewhere at its ends, drops just that character. |
| Strtr.Translate | src/Sanitizer.php:68-132 | PHP's `strtr` with an array of pairs, used for the five passes at lines 68-72, 75-94, 97-116, 119-120 and 132. Its behaviour is stated by ReplacesLongestKey (the longest key at a position is replaced, and its value is not scanned again), CopiesUnmatched (a position where no key starts is copied), NoKeyUnchanged, TranslateSplit and, for one-character keys, PerCharacter. |
| Strtr.MatchLen | src/Sanitizer.php:119-120 | The match at a position is the longest key that is a prefix there, and no longer prefix is a key. |
| Strtr.ReplacesLongestKey | src/Sanitizer.php:119-120 | Where key `k` starts and no longer key does, `k` is replaced by its value and the scan continues after it. |
| Strtr.ReplacesKeyUpTo | src/Sanitizer.php:119-120 | The same, checking only lengths up to the longest key of the table. |
| Strtr.ReplacesKeyBefore | src/Sanitizer.php:119-120 | The same, for a key followed by the rest of a string. |
| Strtr.WholeKey | src/Sanitizer.php:119-120 | A string that is exactly one key becomes that key's value. |
| Strtr.CopiesUnmatched | src/Sanitizer.php:119-120 | Where no key starts, the character is copied. |
| Strtr.CopiesUpTo | src/Sanitizer.php:119-120 | The same, checking only lengths up to the longest key of the table. |
| Strtr.NoKeyUnchanged | src/Sanitizer.php:68-72 | A string none of whose pieces is a key is returned unchanged. |
| Strtr.TranslateChars | src/Sanitizer.php:132 | Every character of the result comes from the input or from a value of the table. |
| Strtr.KeepsNoRun | src/Sanitizer.php:132 | When every value is non-empty and free of `c`, no "cc" is created, and the result begins with `c` only if the input does. |
| Strtr.PerCharacter | src/Sanitizer.php:75-94 | With single-character keys, `strtr` is the character-by-character map. |
| Strtr.ImageConcat | src/Sanitizer.php:75-94 | The character-by-character map distributes over concatenation. |
| Strtr.ImageIdle | src/Sanitizer.php:97-116 | A string none of whose characters is a key is its own image. |
| Strtr.SameMatch | src/Sanitizer.php:68-72 | When no key holds the boundary pair of `a + b`, the longest match at its start is the longest match in `a`. |
| Strtr.FirstStep | src/Sanitizer.php:68-72 | Under the same condition, the first step on `a + b` emits the same text, and consumes the same number of characters, as on `a`. |
| Strtr.TranslateSplit | src/Sanitizer.php:68-72 | When no key straddles the boundary of `a + b`, `strtr` of the whole is `strtr` of `a` followed by `strtr` of `b`. |
| Strtr.UnmarkedUnchanged | src/Sanitizer.php:68-72 | When every key begins or ends with a mark, a string without marks is unchanged. |
| Strtr.CopiesWord | src/Sanitizer.php:119-120 | Characters no key begins with are copied one by one, whatever follows them. |
| Strtr.NoKeyHoldsOutside | src/Sanitizer.php:68-72 | A pair of characters outside the heads and tails of all keys is held by no key. |
| Strtr.CopiesUnmarked | src/Sanitizer.php:68-72 | An unmarked piece followed by a character no key joins it to is copied, and the scan goes on after it. |
| Strtr.ReplacesAlone | src/Sanitizer.php:68-72 | A key followed by a character no key joins it to is replaced, and the scan goes on after it. |
| Regex.Whitelist | src/Sanitizer.php:123 | Every character outside `[a-z0-9\-./]` is deleted and every other one is kept: multiset counts per character. |
| Regex.WhitelistConcat | src/Sanitizer.php:123 | The whitelist acts on each character on its own, so it distributes over concatenation. |
| Regex.Collapse | src/Sanitizer.php:124 | The result has no "cc". It is empty exactly when the input is, and it keeps the first character. |
| Regex.CollapseCounts | src/Sanitizer.php:124 | Collapsing deletes only copies of `c`, and never the last one. |
| Regex.CollapseRunFree | src/Sanitizer.php:126 | A string without "cc" is left as it is. |
| Regex.CollapseKeepsNoRun | src/Sanitizer.php:124-126 | Collapsing runs of `c` creates no run of any other character. |
| Regex.CollapseChars | src/Sanitizer.php:124 | Collapsing keeps only characters of its input. |
| Regex.CollapseKeeps | src/Sanitizer.php:124 | A piece without "cc" that does not form a run with what follows is kept as it is. |
| Regex.CollapseDrops | src/Sanitizer.php:124 | A `c` followed by another `c` is dropped. |
| Regex.StripTags | src/Sanitizer.php:125 | No '<' is followed later by a '>'. Every character comes from the input, and an input without '<' is unchanged. StripTagsKeepsPrefix, StripTagsFirst and StripTagsUnclosed together fix the result for every input. |
| Tables.CurrencyKeysNotSlug | src/Sanitizer.php:68-72 | Every currency key begins or ends with a character the whitelist deletes. |
| Tables.ReservedKeysNotSlug | src/Sanitizer.php:119-120 | Every reserved key except "//" and "-/-" begins with a character the whitelist deletes. |
| Tables.AccentKeys | src/Sanitizer.php:75-94 | Every accent key is one character between U+00C0 and U+01FF. |
| Tables.CyrillicKeys | src/Sanitizer.php:97-116 | Every Cyrillic key is one character between U+0400 and U+04FF. |
| Tables.CurrencyMarked | src/Sanitizer.php:68-72 | Every currency key begins or ends with a currency symbol, "$", "ł", "Д", "б", "л" or "д". |
| Tables.CurrencyPairs | src/Sanitizer.php:68-72 | The adjacent pairs inside currency keys are drawn from two small character sets. |
| Tables.DopBeatsDollar | src/Sanitizer.php:68-72 | "rd$" is replaced as a whole by "dop", not as "rd" then "$". |
| Tables.UyuBeatsDollar | src/Sanitizer.php:68-72 | "$u" is replaced as a whole by "uyu". |
| Tables.LoneDollar | src/Sanitizer.php:68-72 | A "$" that does not begin "$u" or "$b" becomes "usd". |
| Tables.CurrencyExamples | src/Sanitizer.php:68-72 | "rd$", "$u" and "$" on their own give "dop", "uyu" and "usd". |
| Tables.CurrencyShapes | src/Sanitizer.php:68-72 | Every currency key has one to four characters, begins or ends with '$' or a character past 'z', and begins or ends with a currency mark. Its inner characters come from two small sets. |
| Tables.KeyLengths | src/Sanitizer.php:68-72 | No currency key is longer than four characters, and no reserved key longer than six. |
| Tables.CurrencyJoint | src/Sanitizer.php:68-72 | No currency key holds a pair of characters whose first character never precedes another within a key. |
| Tables.ReservedJoint | src/Sanitizer.php:119-120 | No reserved key holds a pair of lowercase letters other than "nb", "bs" and "sp". |
| Tables.JoinJoint | src/Sanitizer.php:132 | The "-/-" key holds no pair of characters that are neither '-' nor '/'. |
| Tables.SpacesToHyphens | src/Sanitizer.php:119-120 | In a piece where every character is a space or starts no reserved key, each space becomes '-', the rest is copied, and the scan continues after the piece, provided a final space is not followed by '/'. |
| Tables.SpacesToHyphensAll | src/Sanitizer.php:119-120 | The same for a whole string. |
| Sanitizer.CurrencyUnmarked | src/Sanitizer.php:68-72 | A string without any currency mark passes the currency pass unchanged. |
| Sanitizer.AccentsOutside | src/Sanitizer.php:75-94 | A string with no character between U+00C0 and U+01FF is its own image under the accent table. |
| Sanitizer.CyrillicOutside | src/Sanitizer.php:97-116 | A string with no character between U+0400 and U+04FF is its own image under the Cyrillic table. |
| Sanitizer.SlugStages | src/Sanitizer.php:67-139 | The pipeline after lowering is the composition of its stages, in the source's order. |
| Sanitizer.TrailingDot | src/Sanitizer.php:133-136 | A string that ends in one dot, and neither begins nor ends with '/' or '.' otherwise, loses just that dot. |
| Sanitizer.DotAfter | src/Sanitizer.php:133-136 | Appending a dot to a string without '/' or '.' at its ends and trimming gives back the string. |
| Sanitizer.UntrimmedInput | src/Sanitizer.php:62-65 | A string of two or more characters with no whitespace at its ends is not falsy, and `trim` leaves it alone. |
| Strtr.TranslateFour | src/Sanitizer.php:68-120 | `strtr` of four pieces joined where no key straddles is the four results joined. |
| Strtr.TranslateIdleSplit | src/Sanitizer.php:68-120 | Two pieces that each pass unchanged, joined where no key straddles, pass unchanged. |
| Strtr.CopiesFirst | src/Sanitizer.php:119-120 | A first character no key begins with is copied, and the scan goes on after it. |
| Strtr.StepsCompose | src/Sanitizer.php:119-120 | When each position of a piece emits one character and moves one on, `strtr` emits those characters and continues after the piece. |
| Strtr.SingleKeyBefore | src/Sanitizer.php:119-120 | A one-character key replaces its character when no longer key can start there. |
| Strtr.SingleKeysHoldNoPair | src/Sanitizer.php:75-116 | A table of one-character keys has no key that straddles a boundary. |
| Strtr.ImageOneForOne | src/Sanitizer.php:75-116 | A string whose every character maps to one given character has the string of those characters as its image. |
| Strtr.ImageSplit | src/Sanitizer.php:75-116 | The character-by-character map of two pieces is the two maps joined. |
| Regex.StripTagsKeepsPrefix | src/Sanitizer.php:125 | Text before the first '<' is kept unchanged, and the pattern is applied to the rest. |
| Regex.StripTagsFirst | src/Sanitizer.php:125 | A '<', then text without '>', then a '>' is deleted as one match, and matching goes on after it. |
| Regex.StripTagsUnclosed | src/Sanitizer.php:125 | A string without '>' has no match, so every '<' in it is kept. |
| Regex.WhitelistSplit | src/Sanitizer.php:123 | The whitelist of two pieces is the two whitelists joined. |
| Regex.WhitelistFour | src/Sanitizer.php:123 | The same for four pieces. |
| Regex.WhitelistDrops | src/Sanitizer.php:123 | A deleted character between two whitelisted pieces is removed and the pieces are kept. |
| Regex.CollapseSplit | src/Sanitizer.php:124-126 | Collapsing two pieces that do not form a run across their joint collapses each piece on its own. |
| Regex.CollapseIdleSplit | src/Sanitizer.php:124-126 | Two run-free pieces that do not form a run across their joint are left alone. |
| Regex.CollapseFour | src/Sanitizer.php:124-126 | The same as CollapseSplit for four pieces. |
| Regex.CollapseTriple | src/Sanitizer.php:124-126 | A run of three copies of `c` between two run-free pieces becomes one `c`. |
| Letters.AccentsODoubleAcute | src/Sanitizer.php:87 | 'ő' becomes "o". |
| Letters.AccentsUDiaeresis | src/Sanitizer.php:80 | 'ü' becomes "u". |
| Letters.AccentsUAcute | src/Sanitizer.php:80 | 'ú' becomes "u". |
| Letters.AccentsAOgonek | src/Sanitizer.php:81 | 'ą' becomes "a". |
| Letters.CyrillicA | src/Sanitizer.php:106 | 'а' becomes "a". |
| Letters.CyrillicVe | src/Sanitizer.php:107 | 'в' becomes "v". |
| Letters.CyrillicIe | src/Sanitizer.php:108 | 'е' becomes "e". |
| Letters.CyrillicZe | src/Sanitizer.php:109 | 'з' becomes "z". |
| Letters.CyrillicI | src/Sanitizer.php:109 | 'и' becomes "i". |
| Letters.CyrillicKa | src/Sanitizer.php:110 | 'к' becomes "k". |
| Letters.CyrillicEm | src/Sanitizer.php:111 | 'м' becomes "m". |
| Letters.CyrillicEn | src/Sanitizer.php:111 | 'н' becomes "n". |
| Letters.CyrillicO | src/Sanitizer.php:112 | 'о' becomes "o". |
| Letters.CyrillicEr | src/Sanitizer.php:112 | 'р' becomes "r". |
| Letters.CyrillicEs | src/Sanitizer.php:112 | 'с' becomes "s". |
| Letters.CyrillicTe | src/Sanitizer.php:113 | 'т' becomes "t". |
| Letters.CyrillicU | src/Sanitizer.php:113 | 'у' becomes "u". |
| Letters.CyrillicHa | src/Sanitizer.php:114 | 'х' becomes "h". |
| Letters.CyrillicChe | src/Sanitizer.php:114 | 'ч' becomes "c". |
| Letters.CyrillicYa | src/Sanitizer.php:116 | 'я' becomes "a". |
| Vectors.FirstEuro | src/Sanitizer.php:68-72 | '€' followed by a space becomes "eur", and the scan goes on after it. |
| Vectors.FirstCurrency | src/Sanitizer.php:68-72 | In the lowered first test input, the currency pass changes only '€', which becomes "eur". |
| Vectors.FirstAccents | src/Sanitizer.php:75-94 | The accent pass turns 'ő', 'ü', 'ą' and 'ú' into plain letters and keeps '˘'. |
| Vectors.FirstReserved | src/Sanitizer.php:119-120 | Spaces, the two characters "\n", " /" and "//" become hyphens, and the lone '-' and '/' stay. |
| Vectors.FirstWhitelist | src/Sanitizer.php:123 | The whitelist removes '`', both '˘' and '~'. |
| Vectors.FirstSlug | src/Sanitizer.php:67-139 | The lowered first test input becomes "this-should-be-sanitized-web-safe-string/-with-eur-currency-at-the.end". |
| Vectors.FirstCase | tests/SanitizerTest.php:31-33 | `url()` of the first test input is "this-should-be-sanitized-web-safe-string/-with-eur-currency-at-the.end", given that lowering turns the capitals into small letters. |
| Vectors.ThirdCyrillic | src/Sanitizer.php:97-116 | The Cyrillic pass transliterates the lowered third test input letter by letter. |
| Vectors.ThirdWhitelist | src/Sanitizer.php:123 | The whitelist removes the question mark. |
| Vectors.ThirdSlug | src/Sanitizer.php:67-139 | The lowered third test input becomes "kak-vas-zovut-mena-zovut-chuck-norris". The trailing dot is trimmed. |
| Vectors.ThirdCase | tests/SanitizerTest.php:39-41 | `url()` of the third test input is "kak-vas-zovut-mena-zovut-chuck-norris", given that lowering turns the capitals into small letters. |
| Tables.SpaceSlashBeatsSpace | src/Sanitizer.php:119-120 | " /" is replaced as a whole: the slash goes with the space. |
| Tables.DoubleSlash | src/Sanitizer.php:119-120 | "//" becomes one hyphen. |
| Tables.LoneSpace | src/Sanitizer.php:119-120 | A space not followed by '/' becomes a hyphen. |
| Tables.LoneSlash | src/Sanitizer.php:119-120 | A '/' not followed by another '/' is kept. |
| Tables.LoneHyphen | src/Sanitizer.php:119-120 | A '-' not followed by "/-" is kept. |
| Tables.BackslashN | src/Sanitizer.php:119-120 | The two characters '\' and 'n' become one hyphen. The source writes `'\n'` in single quotes, which is not a line feed. |
| Tables.ReservedKeysAlone | src/Sanitizer.php:119-120 | Each reserved key on its own becomes "-", except "-/-", which becomes "/". |
| Tables.JoinHyphen | src/Sanitizer.php:132 | In the second "-/-" pass, a '-' not followed by "/-" is kept. |
| Tables.AccentsPerCharacter | src/Sanitizer.php:75-94 | The accent pass is the character-by-character map given by the accent table. |
| Tables.CyrillicPerCharacter | src/Sanitizer.php:97-116 | The Cyrillic pass is the character-by-character map given by the Cyrillic table. |

## Left out

- `Sanitizer::name()` and `Sanitizer::email()`, the other two methods of the class, are not part of this model.
- `mb_strtolower` is a parameter of `Url`. Unicode case mapping is not modelled, so the uppercase keys of the accent and Cyrillic tables are kept but, after lowering, never match.
- PHP strings are bytes; here they are sequences of Unicode scalar values. Invalid UTF-8, and the byte-wise matching of `strtr`, `trim` and `preg_replace` on it, are not modelled. For valid UTF-8 both views agree, since the keys are whole characters.
- `preg_replace` with four patterns is modelled as the four rewrites applied one after another, which is what PHP does. The regular-expression engine itself is not modelled: each pattern is a hand-written function.
- The accent and Cyrillic arrays are each written as the union of seven smaller maps, in the source's order. Their keys do not overlap, so the union is the same array.
- Sanitizer.Url: the comment at src/Sanitizer.php:131 says the slash and dot at the beginning and end are removed, but the code does not guarantee it. A trailing "/." leaves a '/' at the end, so the contract does not promise "no '/' at either end", and `url()` is not idempotent. LeadingSlashSurvives and TrailingSlashSurvives exhibit both.
- The second case of `testSanitizerUrl` (tests/SanitizerTest.php:35-37) is not proved. It would need 29 separate accent entries. What it exercises is covered by `AccentsPerCharacter` and by the first case.
