/**
 * The cases of `testSanitizerUrl` (tests/SanitizerTest.php:29-42), followed through every stage
 * of `url()`. Long literal strings are costly to reason about as a whole, so each case is cut
 * into pieces of about twenty characters at a point between two letters that no stage joins to
 * anything, each stage is worked out piece by piece, and the pieces are put back together.
 */
module Vectors {
  import opened Wrappers
  import opened Text
  import opened Strtr
  import opened Trims
  import opened Regex
  import opened Tables
  import opened Sanitizer
  import opened Letters

  // ---------------------------------------------------------------------------------------
  // First case (tests/SanitizerTest.php:31-33)
  // ---------------------------------------------------------------------------------------

  /**
   * The input "this Shőüld be \n sąn`itiz˘ed /// web-safe STRING/ with € cú˘rrenc~y at THE...END",
   * written as four literals; `\n` in it is a backslash followed by 'n', as in the single-quoted
   * PHP literal.
   */
  const FirstInput: string := "this Shőüld be \\n sąn`i" + "tiz˘ed /// web-safe STRI" + "NG/ with € cú˘rrenc~y a" + "t THE...END"

  /** The lowered input, cut between 'i' and 't', 'i' and 'n', and 'a' and 't'. */
  const First1: string := "this shőüld be \\n sąn`i"
  const First2: string := "tiz˘ed /// web-safe stri"
  const First3: string := "ng/ with € cú˘rrenc~y a"
  const First4: string := "t the...end"
  const FirstLowered: string := First1 + First2 + First3 + First4

  /** The expected "this-should-be-sanitized-web-safe-string/-with-eur-currency-at-the.end". */
  const FirstResult: string := "this-should-be-sani" + "tized-web-safe-stri" + "ng/-with-eur-currency-a" + "t-the.end"

  /** The third piece around its euro sign, and after the currency pass. */
  const FirstBeforeEuro: string := "ng/ with "
  const FirstAfterEuro: string := " cú˘rrenc~y a"
  const First3Eur: string := "ng/ with eur cú˘rrenc~y a"

  /** The first and third pieces after the accent pass; the others have no accented letter. */
  const First1Plain: string := "this should be \\n san`i"
  const First3Plain: string := "ng/ with eur cu˘rrenc~y a"

  /** The pieces after the reserved-character pass. */
  const First1Hyphens: string := "this-should-be---san`i"
  const First2Hyphens: string := "tiz˘ed---web-safe-stri"
  const First3Hyphens: string := "ng/-with-eur-cu˘rrenc~y-a"
  const First4Hyphens: string := "t-the...end"

  /** The first three pieces after the whitelist; the fourth has nothing to remove. */
  const First1Clean: string := "this-should-be---sani"
  const First2Clean: string := "tized---web-safe-stri"
  const First3Clean: string := "ng/-with-eur-currency-a"

  /** The pieces whose runs collapse: the first two lose two hyphens, the last two dots. */
  const First1Single: string := "this-should-be-sani"
  const First2Single: string := "tized-web-safe-stri"
  const First4Single: string := "t-the.end"

  /** The pieces meet between 'i' and 't', 'i' and 'n', and 'a' and 't', at every stage. */
  lemma FirstJoints()
    ensures First1 != [] && First1[|First1| - 1] == 'i' && First2 != [] && First2[0] == 't'
    ensures First2[|First2| - 1] == 'i' && First3 != [] && First3[0] == 'n'
    ensures First3[|First3| - 1] == 'a' && First4 != [] && First4[0] == 't'
  {
  }

  lemma FirstLaterJoints()
    ensures First1Plain != [] && First1Plain[|First1Plain| - 1] == 'i'
    ensures First3Eur != [] && First3Eur[0] == 'n' && First3Eur[|First3Eur| - 1] == 'a'
    ensures First3Plain != [] && First3Plain[0] == 'n' && First3Plain[|First3Plain| - 1] == 'a'
  {
  }

  // The currency pass turns the euro sign into "eur" and leaves everything else alone.

  lemma First1Marks()
    ensures forall i :: 0 <= i < |First1| ==> First1[i] !in CurrencyMarks
  {
  }

  lemma First2Marks()
    ensures forall i :: 0 <= i < |First2| ==> First2[i] !in CurrencyMarks
  {
  }

  lemma First4Marks()
    ensures forall i :: 0 <= i < |First4| ==> First4[i] !in CurrencyMarks
  {
  }

  lemma FirstBeforeEuroMarks()
    ensures forall i :: 0 <= i < |FirstBeforeEuro| ==> FirstBeforeEuro[i] !in CurrencyMarks
  {
  }

  lemma FirstAfterEuroMarks()
    ensures forall i :: 0 <= i < |FirstAfterEuro| ==> FirstAfterEuro[i] !in CurrencyMarks
  {
  }

  lemma EuroEntry()
    ensures "€" in Currency && Currency["€"] == "eur"
  {
  }

  lemma FirstEuroPieces()
    ensures First3 == FirstBeforeEuro + ("€" + FirstAfterEuro)
  {
  }

  lemma FirstEurPieces()
    ensures First3Eur == FirstBeforeEuro + ("eur" + FirstAfterEuro)
  {
  }

  /** The space before the euro sign starts no currency key. */
  lemma FirstEuroJoint()
    ensures FirstBeforeEuro != [] && "€" + FirstAfterEuro != []
    ensures NoKeyHolds(Currency, FirstBeforeEuro[|FirstBeforeEuro| - 1], ("€" + FirstAfterEuro)[0])
  {
    assert FirstBeforeEuro[|FirstBeforeEuro| - 1] == ' ';
    CurrencyJoint(' ', ("€" + FirstAfterEuro)[0]);
  }

  lemma FirstBeforeEuroCopied()
    ensures Translate(Currency, FirstBeforeEuro + ("€" + FirstAfterEuro))
         == FirstBeforeEuro + Translate(Currency, "€" + FirstAfterEuro)
  {
    FirstBeforeEuroMarks();
    CurrencyMarked();
    FirstEuroJoint();
    CopiesUnmarked(Currency, FirstBeforeEuro, "€" + FirstAfterEuro, CurrencyMarks);
  }

  /** The euro sign is the whole of its only key, so it is replaced on its own. */
  lemma FirstEuro()
    ensures Translate(Currency, "€" + FirstAfterEuro) == "eur" + Translate(Currency, FirstAfterEuro)
  {
    EuroEntry();
    assert FirstAfterEuro[0] == ' ';
    CurrencyJoint('€', ' ');
    ReplacesAlone(Currency, "€", FirstAfterEuro);
  }

  lemma FirstAfterEuroUnmarked()
    ensures Translate(Currency, FirstAfterEuro) == FirstAfterEuro
  {
    FirstAfterEuroMarks();
    CurrencyUnmarked(FirstAfterEuro);
  }

  lemma First3Currency()
    ensures Translate(Currency, First3) == First3Eur
  {
    FirstEuroPieces();
    FirstEurPieces();
    FirstBeforeEuroCopied();
    FirstEuro();
    FirstAfterEuroUnmarked();
  }

  lemma First1Unmarked()
    ensures Translate(Currency, First1) == First1
  {
    First1Marks();
    CurrencyUnmarked(First1);
  }

  lemma First2Unmarked()
    ensures Translate(Currency, First2) == First2
  {
    First2Marks();
    CurrencyUnmarked(First2);
  }

  lemma First4Unmarked()
    ensures Translate(Currency, First4) == First4
  {
    First4Marks();
    CurrencyUnmarked(First4);
  }

  lemma FirstCurrencyJoints()
    ensures First1 != [] && First2 != [] && First3 != [] && First4 != []
    ensures NoKeyHolds(Currency, First1[|First1| - 1], First2[0])
    ensures NoKeyHolds(Currency, First2[|First2| - 1], First3[0])
    ensures NoKeyHolds(Currency, First3[|First3| - 1], First4[0])
  {
    FirstJoints();
    CurrencyJoint('i', 't');
    CurrencyJoint('i', 'n');
    CurrencyJoint('a', 't');
  }

  lemma FirstCurrency()
    ensures Translate(Currency, First1 + First2 + First3 + First4) == First1 + First2 + First3Eur + First4
  {
    First1Unmarked();
    First2Unmarked();
    First3Currency();
    First4Unmarked();
    FirstCurrencyJoints();
    TranslateFour(Currency, First1, First2, First3, First4, First1, First2, First3Eur, First4);
  }

  // The accent pass strips the marks from ő, ü, ą and ú.

  /** Every character of the first piece, for any table that maps them as the accent table does. */
  lemma First1Image(t: Table)
    requires CharImage(t, 't') == "t" && CharImage(t, 'h') == "h" && CharImage(t, 'i') == "i"
    requires CharImage(t, 's') == "s" && CharImage(t, ' ') == " " && CharImage(t, 'ő') == "o"
    requires CharImage(t, 'ü') == "u" && CharImage(t, 'l') == "l" && CharImage(t, 'd') == "d"
    requires CharImage(t, 'b') == "b" && CharImage(t, 'e') == "e" && CharImage(t, '\\') == "\\"
    requires CharImage(t, 'n') == "n" && CharImage(t, 'ą') == "a" && CharImage(t, '`') == "`"
    ensures Image(t, First1) == First1Plain
  {
    ImageOneForOne(t, First1, First1Plain);
  }

  /** Every character of the third piece, for any table that maps them as the accent table does. */
  lemma First3Image(t: Table)
    requires CharImage(t, 'n') == "n" && CharImage(t, 'g') == "g" && CharImage(t, '/') == "/"
    requires CharImage(t, ' ') == " " && CharImage(t, 'w') == "w" && CharImage(t, 'i') == "i"
    requires CharImage(t, 't') == "t" && CharImage(t, 'h') == "h" && CharImage(t, 'e') == "e"
    requires CharImage(t, 'u') == "u" && CharImage(t, 'r') == "r" && CharImage(t, 'c') == "c"
    requires CharImage(t, 'ú') == "u" && CharImage(t, '˘') == "˘" && CharImage(t, '~') == "~"
    requires CharImage(t, 'y') == "y" && CharImage(t, 'a') == "a"
    ensures Image(t, First3Eur) == First3Plain
  {
    ImageOneForOne(t, First3Eur, First3Plain);
  }

  lemma First1Accents()
    ensures Image(Accents, First1) == First1Plain
  {
    AccentsODoubleAcute();
    AccentsUDiaeresis();
    AccentsAOgonek();
    AccentKeys();
    OutsideImage(Accents, '\U{00C0}', '\U{01FF}', 't');
    OutsideImage(Accents, '\U{00C0}', '\U{01FF}', 'h');
    OutsideImage(Accents, '\U{00C0}', '\U{01FF}', 'i');
    OutsideImage(Accents, '\U{00C0}', '\U{01FF}', 's');
    OutsideImage(Accents, '\U{00C0}', '\U{01FF}', ' ');
    OutsideImage(Accents, '\U{00C0}', '\U{01FF}', 'l');
    OutsideImage(Accents, '\U{00C0}', '\U{01FF}', 'd');
    OutsideImage(Accents, '\U{00C0}', '\U{01FF}', 'b');
    OutsideImage(Accents, '\U{00C0}', '\U{01FF}', 'e');
    OutsideImage(Accents, '\U{00C0}', '\U{01FF}', '\\');
    OutsideImage(Accents, '\U{00C0}', '\U{01FF}', 'n');
    OutsideImage(Accents, '\U{00C0}', '\U{01FF}', '`');
    First1Image(Accents);
  }

  lemma First3Accents()
    ensures Image(Accents, First3Eur) == First3Plain
  {
    AccentsUAcute();
    AccentKeys();
    OutsideImage(Accents, '\U{00C0}', '\U{01FF}', 'n');
    OutsideImage(Accents, '\U{00C0}', '\U{01FF}', 'g');
    OutsideImage(Accents, '\U{00C0}', '\U{01FF}', '/');
    OutsideImage(Accents, '\U{00C0}', '\U{01FF}', ' ');
    OutsideImage(Accents, '\U{00C0}', '\U{01FF}', 'w');
    OutsideImage(Accents, '\U{00C0}', '\U{01FF}', 'i');
    OutsideImage(Accents, '\U{00C0}', '\U{01FF}', 't');
    OutsideImage(Accents, '\U{00C0}', '\U{01FF}', 'h');
    OutsideImage(Accents, '\U{00C0}', '\U{01FF}', 'e');
    OutsideImage(Accents, '\U{00C0}', '\U{01FF}', 'u');
    OutsideImage(Accents, '\U{00C0}', '\U{01FF}', 'r');
    OutsideImage(Accents, '\U{00C0}', '\U{01FF}', 'c');
    OutsideImage(Accents, '\U{00C0}', '\U{01FF}', '˘');
    OutsideImage(Accents, '\U{00C0}', '\U{01FF}', '~');
    OutsideImage(Accents, '\U{00C0}', '\U{01FF}', 'y');
    OutsideImage(Accents, '\U{00C0}', '\U{01FF}', 'a');
    First3Image(Accents);
  }

  lemma First2Plain()
    ensures forall i :: 0 <= i < |First2| ==> First2[i] < '\U{00C0}' || '\U{01FF}' < First2[i]
  {
  }

  lemma First4Plain()
    ensures forall i :: 0 <= i < |First4| ==> First4[i] < '\U{00C0}' || '\U{01FF}' < First4[i]
  {
  }

  lemma First2Unaccented()
    ensures Image(Accents, First2) == First2
  {
    First2Plain();
    AccentsOutside(First2);
  }

  lemma First4Unaccented()
    ensures Image(Accents, First4) == First4
  {
    First4Plain();
    AccentsOutside(First4);
  }

  lemma First1AccentPass()
    ensures Translate(Accents, First1) == First1Plain
  {
    First1Accents();
    AccentsPerCharacter(First1);
  }

  lemma First2AccentPass()
    ensures Translate(Accents, First2) == First2
  {
    First2Unaccented();
    AccentsPerCharacter(First2);
  }

  lemma First3AccentPass()
    ensures Translate(Accents, First3Eur) == First3Plain
  {
    First3Accents();
    AccentsPerCharacter(First3Eur);
  }

  lemma First4AccentPass()
    ensures Translate(Accents, First4) == First4
  {
    First4Unaccented();
    AccentsPerCharacter(First4);
  }

  lemma FirstAccents()
    ensures Translate(Accents, First1 + First2 + First3Eur + First4) == First1Plain + First2 + First3Plain + First4
  {
    First1AccentPass();
    First2AccentPass();
    First3AccentPass();
    First4AccentPass();
    FirstJoints();
    FirstLaterJoints();
    AccentKeys();
    SingleKeysHoldNoPair(Accents, First1[|First1| - 1], First2[0]);
    SingleKeysHoldNoPair(Accents, First2[|First2| - 1], First3Eur[0]);
    SingleKeysHoldNoPair(Accents, First3Eur[|First3Eur| - 1], First4[0]);
    TranslateFour(Accents, First1, First2, First3Eur, First4, First1Plain, First2, First3Plain, First4);
  }

  // There is no Cyrillic letter.

  lemma First1NoCyrillic()
    ensures forall i :: 0 <= i < |First1Plain| ==> First1Plain[i] < '\U{0400}' || '\U{04FF}' < First1Plain[i]
  {
  }

  lemma First2NoCyrillic()
    ensures forall i :: 0 <= i < |First2| ==> First2[i] < '\U{0400}' || '\U{04FF}' < First2[i]
  {
  }

  lemma First3NoCyrillic()
    ensures forall i :: 0 <= i < |First3Plain| ==> First3Plain[i] < '\U{0400}' || '\U{04FF}' < First3Plain[i]
  {
  }

  lemma First4NoCyrillic()
    ensures forall i :: 0 <= i < |First4| ==> First4[i] < '\U{0400}' || '\U{04FF}' < First4[i]
  {
  }

  lemma First1CyrillicPass()
    ensures Translate(Cyrillic, First1Plain) == First1Plain
  {
    First1NoCyrillic();
    CyrillicOutside(First1Plain);
    CyrillicPerCharacter(First1Plain);
  }

  lemma First2CyrillicPass()
    ensures Translate(Cyrillic, First2) == First2
  {
    First2NoCyrillic();
    CyrillicOutside(First2);
    CyrillicPerCharacter(First2);
  }

  lemma First3CyrillicPass()
    ensures Translate(Cyrillic, First3Plain) == First3Plain
  {
    First3NoCyrillic();
    CyrillicOutside(First3Plain);
    CyrillicPerCharacter(First3Plain);
  }

  lemma First4CyrillicPass()
    ensures Translate(Cyrillic, First4) == First4
  {
    First4NoCyrillic();
    CyrillicOutside(First4);
    CyrillicPerCharacter(First4);
  }

  lemma FirstCyrillic()
    ensures Translate(Cyrillic, First1Plain + First2 + First3Plain + First4) == First1Plain + First2 + First3Plain + First4
  {
    First1CyrillicPass();
    First2CyrillicPass();
    First3CyrillicPass();
    First4CyrillicPass();
    FirstJoints();
    FirstLaterJoints();
    CyrillicKeys();
    SingleKeysHoldNoPair(Cyrillic, First1Plain[|First1Plain| - 1], First2[0]);
    SingleKeysHoldNoPair(Cyrillic, First2[|First2| - 1], First3Plain[0]);
    SingleKeysHoldNoPair(Cyrillic, First3Plain[|First3Plain| - 1], First4[0]);
    TranslateFour(Cyrillic, First1Plain, First2, First3Plain, First4, First1Plain, First2, First3Plain, First4);
  }

  // The reserved pass: spaces, "\n", " /" and "//" become hyphens; the lone '-' and '/' stay.

  lemma First1Split()
    ensures First1Plain == "this should be " + ("\\n" + " san`i")
  {
  }

  lemma First1HyphensSplit()
    ensures First1Hyphens == "this-should-be-" + ("-" + "-san`i")
  {
  }

  lemma First1Words()
    ensures Translate(Reserved, "this should be " + ("\\n" + " san`i"))
         == "this-should-be-" + Translate(Reserved, "\\n" + " san`i")
  {
    SpacesToHyphens("this should be ", "this-should-be-", "\\n" + " san`i");
  }

  lemma First1Last()
    ensures Translate(Reserved, " san`i") == "-san`i"
  {
    SpacesToHyphensAll(" san`i", "-san`i");
  }

  lemma First1Reserved()
    ensures Translate(Reserved, First1Plain) == First1Hyphens
  {
    First1Split();
    First1HyphensSplit();
    First1Words();
    BackslashN(" san`i");
    First1Last();
  }

  lemma First2Split()
    ensures First2 == "tiz˘ed" + (" /" + ("//" + (" web" + ("-" + "safe stri"))))
  {
  }

  lemma First2HyphensSplit()
    ensures First2Hyphens == "tiz˘ed" + ("-" + ("-" + ("-web" + ("-" + "safe-stri"))))
  {
  }

  lemma First2Word()
    ensures Translate(Reserved, "tiz˘ed" + (" /" + ("//" + (" web" + ("-" + "safe stri")))))
         == "tiz˘ed" + Translate(Reserved, " /" + ("//" + (" web" + ("-" + "safe stri"))))
  {
    SpacesToHyphens("tiz˘ed", "tiz˘ed", " /" + ("//" + (" web" + ("-" + "safe stri"))));
  }

  lemma First2Web()
    ensures Translate(Reserved, " web" + ("-" + "safe stri")) == "-web" + Translate(Reserved, "-" + "safe stri")
  {
    SpacesToHyphens(" web", "-web", "-" + "safe stri");
  }

  lemma First2SafeWords()
    ensures Translate(Reserved, "safe stri") == "safe-stri"
  {
    SpacesToHyphensAll("safe stri", "safe-stri");
  }

  lemma First2SafeHyphen()
    ensures Translate(Reserved, "-" + "safe stri") == "-" + Translate(Reserved, "safe stri")
  {
    assert "safe stri"[0] != "/-"[0];
    LoneHyphen("safe stri");
  }

  lemma First2Safe()
    ensures Translate(Reserved, "-" + "safe stri") == "-" + "safe-stri"
  {
    First2SafeHyphen();
    First2SafeWords();
  }

  lemma First2Reserved()
    ensures Translate(Reserved, First2) == First2Hyphens
  {
    First2Split();
    First2HyphensSplit();
    First2Word();
    SpaceSlashBeatsSpace("//" + (" web" + ("-" + "safe stri")));
    DoubleSlash(" web" + ("-" + "safe stri"));
    First2Web();
    First2Safe();
  }

  lemma First3Split()
    ensures First3Plain == "ng" + ("/" + " with eur cu˘rrenc~y a")
  {
  }

  lemma First3HyphensSplit()
    ensures First3Hyphens == "ng" + ("/" + "-with-eur-cu˘rrenc~y-a")
  {
  }

  lemma First3Word()
    ensures Translate(Reserved, "ng" + ("/" + " with eur cu˘rrenc~y a"))
         == "ng" + Translate(Reserved, "/" + " with eur cu˘rrenc~y a")
  {
    SpacesToHyphens("ng", "ng", "/" + " with eur cu˘rrenc~y a");
  }

  lemma First3Words()
    ensures Translate(Reserved, " with eur cu˘rrenc~y a") == "-with-eur-cu˘rrenc~y-a"
  {
    SpacesToHyphensAll(" with eur cu˘rrenc~y a", "-with-eur-cu˘rrenc~y-a");
  }

  lemma First3Slash()
    ensures Translate(Reserved, "/" + " with eur cu˘rrenc~y a") == "/" + Translate(Reserved, " with eur cu˘rrenc~y a")
  {
    LoneSlash(" with eur cu˘rrenc~y a");
  }

  lemma First3Rest()
    ensures Translate(Reserved, "/" + " with eur cu˘rrenc~y a") == "/" + "-with-eur-cu˘rrenc~y-a"
  {
    First3Slash();
    First3Words();
  }

  lemma First3Reserved()
    ensures Translate(Reserved, First3Plain) == First3Hyphens
  {
    First3Split();
    First3HyphensSplit();
    First3Word();
    First3Rest();
  }

  lemma First4Reserved()
    ensures Translate(Reserved, First4) == First4Hyphens
  {
    SpacesToHyphensAll(First4, First4Hyphens);
  }

  lemma FirstReservedJoints()
    ensures First1Plain != [] && First2 != [] && First3Plain != [] && First4 != []
    ensures NoKeyHolds(Reserved, First1Plain[|First1Plain| - 1], First2[0])
    ensures NoKeyHolds(Reserved, First2[|First2| - 1], First3Plain[0])
    ensures NoKeyHolds(Reserved, First3Plain[|First3Plain| - 1], First4[0])
  {
    FirstJoints();
    FirstLaterJoints();
    ReservedJoint('i', 't');
    ReservedJoint('i', 'n');
    ReservedJoint('a', 't');
  }

  lemma FirstReserved()
    ensures Translate(Reserved, First1Plain + First2 + First3Plain + First4)
         == First1Hyphens + First2Hyphens + First3Hyphens + First4Hyphens
  {
    First1Reserved();
    First2Reserved();
    First3Reserved();
    First4Reserved();
    FirstReservedJoints();
    TranslateFour(Reserved, First1Plain, First2, First3Plain, First4, First1Hyphens, First2Hyphens, First3Hyphens, First4Hyphens);
  }

  // The whitelist removes '`', both breves and '~'.

  lemma First1Drop()
    ensures First1Hyphens == "this-should-be---san" + ['`'] + "i"
    ensures First1Clean == "this-should-be---san" + "i"
    ensures AllSlugChars("this-should-be---san") && AllSlugChars("i")
  {
  }

  lemma First1Whitelist()
    ensures Whitelist(First1Hyphens) == First1Clean
  {
    First1Drop();
    WhitelistDrops("this-should-be---san", '`', "i");
  }

  lemma First2Drop()
    ensures First2Hyphens == "tiz" + ['˘'] + "ed---web-safe-stri"
    ensures First2Clean == "tiz" + "ed---web-safe-stri"
    ensures AllSlugChars("tiz") && AllSlugChars("ed---web-safe-stri")
  {
  }

  lemma First2Whitelist()
    ensures Whitelist(First2Hyphens) == First2Clean
  {
    First2Drop();
    WhitelistDrops("tiz", '˘', "ed---web-safe-stri");
  }

  lemma First3Drops()
    ensures First3Hyphens == ("ng/-with-eur-cu" + ['˘'] + "rrenc") + ([] + ['~'] + "y-a")
    ensures First3Clean == ("ng/-with-eur-cu" + "rrenc") + ([] + "y-a")
  {
  }

  lemma First3Kept()
    ensures AllSlugChars("ng/-with-eur-cu") && AllSlugChars("rrenc") && AllSlugChars("y-a")
  {
  }

  lemma First3DropBreve()
    ensures Whitelist("ng/-with-eur-cu" + ['˘'] + "rrenc") == "ng/-with-eur-cu" + "rrenc"
  {
    First3Kept();
    WhitelistDrops("ng/-with-eur-cu", '˘', "rrenc");
  }

  lemma First3DropTilde()
    ensures Whitelist([] + ['~'] + "y-a") == [] + "y-a"
  {
    First3Kept();
    WhitelistDrops([], '~', "y-a");
  }

  lemma First3Whitelist()
    ensures Whitelist(First3Hyphens) == First3Clean
  {
    First3Drops();
    First3DropBreve();
    First3DropTilde();
    WhitelistSplit("ng/-with-eur-cu" + ['˘'] + "rrenc", [] + ['~'] + "y-a", "ng/-with-eur-cu" + "rrenc", [] + "y-a");
  }

  lemma First4Whitelist()
    ensures Whitelist(First4Hyphens) == First4Hyphens
  {
    assert AllSlugChars(First4Hyphens);
  }

  lemma FirstWhitelist()
    ensures Whitelist(First1Hyphens + First2Hyphens + First3Hyphens + First4Hyphens)
         == First1Clean + First2Clean + First3Clean + First4Hyphens
  {
    First1Whitelist();
    First2Whitelist();
    First3Whitelist();
    First4Whitelist();
    WhitelistFour(First1Hyphens, First2Hyphens, First3Hyphens, First4Hyphens, First1Clean, First2Clean, First3Clean, First4Hyphens);
  }

  // The runs "---" and "..." collapse.

  lemma First1Run()
    ensures First1Clean == "this-should-be" + ['-', '-', '-'] + "sani" && First1Single == "this-should-be" + ['-'] + "sani"
    ensures NoRun('-', "this-should-be") && NoRun('-', "sani")
  {
  }

  lemma First1Collapse()
    ensures Collapse('-', First1Clean) == First1Single
  {
    First1Run();
    CollapseTriple('-', "this-should-be", "sani");
  }

  lemma First2Run()
    ensures First2Clean == "tized" + ['-', '-', '-'] + "web-safe-stri" && First2Single == "tized" + ['-'] + "web-safe-stri"
    ensures NoRun('-', "tized") && NoRun('-', "web-safe-stri")
  {
  }

  lemma First2Collapse()
    ensures Collapse('-', First2Clean) == First2Single
  {
    First2Run();
    CollapseTriple('-', "tized", "web-safe-stri");
  }

  lemma FirstHyphenFree()
    ensures NoRun('-', First3Clean) && NoRun('-', First4Hyphens)
  {
  }

  lemma FirstDotFree()
    ensures NoRun('.', First1Single) && NoRun('.', First2Single) && NoRun('.', First3Clean)
  {
  }

  lemma FirstEnds()
    ensures First1Clean != [] && First1Clean[|First1Clean| - 1] == 'i'
    ensures First2Clean != [] && First2Clean[|First2Clean| - 1] == 'i'
    ensures First3Clean != [] && First3Clean[|First3Clean| - 1] == 'a' && First3Clean[0] == 'n'
    ensures First4Hyphens != [] && First4Single != [] && First4Single[0] == 't'
    ensures First1Single != [] && First1Single[|First1Single| - 1] == 'i'
    ensures First2Single != [] && First2Single[|First2Single| - 1] == 'i' && First2Single[0] == 't'
  {
  }

  lemma FirstCollapseHyphens()
    ensures Collapse('-', First1Clean + First2Clean + First3Clean + First4Hyphens)
         == First1Single + First2Single + First3Clean + First4Hyphens
  {
    First1Collapse();
    First2Collapse();
    FirstHyphenFree();
    FirstEnds();
    CollapseRunFree('-', First3Clean);
    CollapseRunFree('-', First4Hyphens);
    CollapseFour('-', First1Clean, First2Clean, First3Clean, First4Hyphens, First1Single, First2Single, First3Clean, First4Hyphens);
  }

  lemma First4Run()
    ensures First4Hyphens == "t-the" + ['.', '.', '.'] + "end" && First4Single == "t-the" + ['.'] + "end"
    ensures NoRun('.', "t-the") && NoRun('.', "end")
  {
  }

  lemma First4Collapse()
    ensures Collapse('.', First4Hyphens) == First4Single
  {
    First4Run();
    CollapseTriple('.', "t-the", "end");
  }

  lemma FirstCollapseDots()
    ensures Collapse('.', First1Single + First2Single + First3Clean + First4Hyphens)
         == First1Single + First2Single + First3Clean + First4Single
  {
    FirstDotFree();
    FirstEnds();
    CollapseRunFree('.', First1Single);
    CollapseRunFree('.', First2Single);
    CollapseRunFree('.', First3Clean);
    First4Collapse();
    CollapseFour('.', First1Single, First2Single, First3Clean, First4Hyphens, First1Single, First2Single, First3Clean, First4Single);
  }

  // Nothing is joined or trimmed at the end.

  lemma FirstJoinFree()
    ensures NoJoin(First1Single) && NoJoin(First2Single) && NoJoin(First3Clean) && NoJoin(First4Single)
  {
  }

  lemma FirstJoinIdle()
    ensures Translate(SlashJoin, First1Single + First2Single + First3Clean + First4Single)
         == First1Single + First2Single + First3Clean + First4Single
  {
    FirstJoinFree();
    FirstEnds();
    JoinIdle(First1Single);
    JoinIdle(First2Single);
    JoinIdle(First3Clean);
    JoinIdle(First4Single);
    JoinJoint('i', 't');
    JoinJoint('i', 'n');
    JoinJoint('a', 't');
    TranslateFour(SlashJoin, First1Single, First2Single, First3Clean, First4Single, First1Single, First2Single, First3Clean, First4Single);
  }

  lemma FirstJoined()
    ensures First1Single + First2Single + First3Clean + First4Single == FirstResult
    ensures FirstResult != [] && FirstResult[0] == 't' && FirstResult[|FirstResult| - 1] == 'd'
  {
  }

  lemma FirstEdges()
    ensures TrimEdges(First1Single + First2Single + First3Clean + First4Single) == FirstResult
  {
    FirstJoinIdle();
    FirstJoined();
    TrimSlashesThenDotsIdle(FirstResult);
  }

  /** The lowered first case becomes "this-should-be-sanitized-web-safe-string/-with-eur-currency-at-the.end". */
  lemma FirstSlug()
    ensures Slug(FirstLowered) == FirstResult
  {
    FirstCurrency();
    FirstAccents();
    FirstCyrillic();
    FirstReserved();
    FirstWhitelist();
    FirstCollapseHyphens();
    FirstCollapseDots();
    FirstEdges();
    SlugStages(First1 + First2 + First3 + First4, First1 + First2 + First3Eur + First4,
      First1Plain + First2 + First3Plain + First4, First1Plain + First2 + First3Plain + First4,
      First1Hyphens + First2Hyphens + First3Hyphens + First4Hyphens,
      First1Clean + First2Clean + First3Clean + First4Hyphens,
      First1Single + First2Single + First3Clean + First4Hyphens,
      First1Single + First2Single + First3Clean + First4Single, FirstResult);
  }

  /** The first input is neither falsy nor padded with whitespace. */
  lemma FirstUntrimmed()
    ensures !IsFalsy(Some(FirstInput)) && Trim(FirstInput) == FirstInput
  {
    assert FirstInput[0] == 't' && FirstInput[|FirstInput| - 1] == 'D';
    UntrimmedInput(FirstInput);
  }

  /**
   * `url('this Shőüld be \n sąn`itiz˘ed /// web-safe STRING/ with € cú˘rrenc~y at THE...END')` is
   * 'this-should-be-sanitized-web-safe-string/-with-eur-currency-at-the.end', given that
   * `mb_strtolower` lowers the capitals.
   */
  lemma FirstCase(lower: string -> string)
    requires lower(FirstInput) == FirstLowered
    ensures Url(Some(FirstInput), lower) == Some(FirstResult)
  {
    FirstUntrimmed();
    FirstSlug();
  }

  // ---------------------------------------------------------------------------------------
  // Third case: "Как вас зовут? Меня зовут Чхучк Норрис." (tests/SanitizerTest.php:39-41)
  // ---------------------------------------------------------------------------------------

  const ThirdInput: string := "Как вас зовут? Меня зовут Чхучк Норрис."
  const ThirdLowered: string := "как вас зовут? меня зовут чхучк норрис."
  const ThirdResult: string := "kak-vas-zovut-mena-zovut-chuck-norris"

  /** The lowered input, cut between 'з' and 'о'. */
  const ThirdHead: string := "как вас зовут? меня з"
  const ThirdTail: string := "овут чхучк норрис."

  /** The pieces after the Cyrillic pass. */
  const ThirdHeadLatin: string := "kak vas zovut? mena z"
  const ThirdTailLatin: string := "ovut chuck norris."

  /** The pieces after the reserved-character pass. */
  const ThirdHeadHyphens: string := "kak-vas-zovut?-mena-z"
  const ThirdTailHyphens: string := "ovut-chuck-norris."

  /** The first piece after the whitelist; the second has nothing to remove. */
  const ThirdHeadClean: string := "kak-vas-zovut-mena-z"

  lemma ThirdPieces()
    ensures ThirdLowered == ThirdHead + ThirdTail
  {
  }

  /** No character of either piece is a currency mark. */
  lemma ThirdHeadMarks()
    ensures forall i :: 0 <= i < |ThirdHead| ==> ThirdHead[i] !in CurrencyMarks
  {
  }

  lemma ThirdTailMarks()
    ensures forall i :: 0 <= i < |ThirdTail| ==> ThirdTail[i] !in CurrencyMarks
  {
  }

  lemma ThirdHeadUnmarked()
    ensures Translate(Currency, ThirdHead) == ThirdHead
  {
    ThirdHeadMarks();
    CurrencyUnmarked(ThirdHead);
  }

  lemma ThirdTailUnmarked()
    ensures Translate(Currency, ThirdTail) == ThirdTail
  {
    ThirdTailMarks();
    CurrencyUnmarked(ThirdTail);
  }

  /** The pieces meet between 'з' and 'о', and no currency key holds that pair. */
  lemma ThirdJoint()
    ensures ThirdHead != [] && ThirdTail != []
    ensures NoKeyHolds(Currency, ThirdHead[|ThirdHead| - 1], ThirdTail[0])
  {
    assert ThirdHead[|ThirdHead| - 1] == 'з';
    CurrencyJoint('з', ThirdTail[0]);
  }

  /** Neither the currency nor the accent pass finds anything. */
  lemma ThirdCurrency()
    ensures Translate(Currency, ThirdHead + ThirdTail) == ThirdHead + ThirdTail
  {
    ThirdHeadUnmarked();
    ThirdTailUnmarked();
    ThirdJoint();
    TranslateIdleSplit(Currency, ThirdHead, ThirdTail);
  }

  /** No character of either piece lies in the range of accented Latin letters. */
  lemma ThirdHeadPlain()
    ensures forall i :: 0 <= i < |ThirdHead| ==> ThirdHead[i] < '\U{00C0}' || '\U{01FF}' < ThirdHead[i]
  {
  }

  lemma ThirdTailPlain()
    ensures forall i :: 0 <= i < |ThirdTail| ==> ThirdTail[i] < '\U{00C0}' || '\U{01FF}' < ThirdTail[i]
  {
  }

  lemma ThirdHeadUnaccented()
    ensures Image(Accents, ThirdHead) == ThirdHead
  {
    ThirdHeadPlain();
    AccentsOutside(ThirdHead);
  }

  lemma ThirdTailUnaccented()
    ensures Image(Accents, ThirdTail) == ThirdTail
  {
    ThirdTailPlain();
    AccentsOutside(ThirdTail);
  }

  lemma ThirdAccents()
    ensures Translate(Accents, ThirdHead + ThirdTail) == ThirdHead + ThirdTail
  {
    ThirdHeadUnaccented();
    ThirdTailUnaccented();
    ImageSplit(Accents, ThirdHead, ThirdTail, ThirdHead, ThirdTail);
    AccentsPerCharacter(ThirdHead + ThirdTail);
  }

  /** Every Cyrillic letter of the first piece, for any table that maps them as the Cyrillic table does. */
  lemma ThirdHeadImage(t: Table)
    requires CharImage(t, 'к') == "k" && CharImage(t, 'а') == "a" && CharImage(t, 'в') == "v"
    requires CharImage(t, 'с') == "s" && CharImage(t, 'з') == "z" && CharImage(t, 'о') == "o"
    requires CharImage(t, 'у') == "u" && CharImage(t, 'т') == "t" && CharImage(t, 'м') == "m"
    requires CharImage(t, 'е') == "e" && CharImage(t, 'н') == "n" && CharImage(t, 'я') == "a"
    requires CharImage(t, ' ') == " " && CharImage(t, '?') == "?"
    ensures Image(t, ThirdHead) == ThirdHeadLatin
  {
    ImageOneForOne(t, ThirdHead, ThirdHeadLatin);
  }

  /** Every Cyrillic letter of the second piece, for any table that maps them as the Cyrillic table does. */
  lemma ThirdTailImage(t: Table)
    requires CharImage(t, 'о') == "o" && CharImage(t, 'в') == "v" && CharImage(t, 'у') == "u"
    requires CharImage(t, 'т') == "t" && CharImage(t, 'ч') == "c" && CharImage(t, 'х') == "h"
    requires CharImage(t, 'к') == "k" && CharImage(t, 'н') == "n" && CharImage(t, 'р') == "r"
    requires CharImage(t, 'и') == "i" && CharImage(t, 'с') == "s"
    requires CharImage(t, ' ') == " " && CharImage(t, '.') == "."
    ensures Image(t, ThirdTail) == ThirdTailLatin
  {
    ImageOneForOne(t, ThirdTail, ThirdTailLatin);
  }

  /** The Cyrillic pass spells the question in Latin letters. */
  lemma ThirdCyrillic()
    ensures Translate(Cyrillic, ThirdHead + ThirdTail) == ThirdHeadLatin + ThirdTailLatin
  {
    CyrillicKa();
    CyrillicA();
    CyrillicVe();
    CyrillicEs();
    CyrillicZe();
    CyrillicO();
    CyrillicU();
    CyrillicTe();
    CyrillicEm();
    CyrillicIe();
    CyrillicEn();
    CyrillicYa();
    CyrillicChe();
    CyrillicHa();
    CyrillicEr();
    CyrillicI();
    CyrillicKeys();
    OutsideImage(Cyrillic, '\U{0400}', '\U{04FF}', ' ');
    OutsideImage(Cyrillic, '\U{0400}', '\U{04FF}', '?');
    OutsideImage(Cyrillic, '\U{0400}', '\U{04FF}', '.');
    ThirdHeadImage(Cyrillic);
    ThirdTailImage(Cyrillic);
    ImageSplit(Cyrillic, ThirdHead, ThirdTail, ThirdHeadLatin, ThirdTailLatin);
    CyrillicPerCharacter(ThirdHead + ThirdTail);
  }

  lemma ThirdHeadReserved()
    ensures Translate(Reserved, ThirdHeadLatin + ThirdTailLatin) == ThirdHeadHyphens + Translate(Reserved, ThirdTailLatin)
  {
    SpacesToHyphens(ThirdHeadLatin, ThirdHeadHyphens, ThirdTailLatin);
  }

  lemma ThirdTailReserved()
    ensures Translate(Reserved, ThirdTailLatin) == ThirdTailHyphens
  {
    SpacesToHyphens(ThirdTailLatin, ThirdTailHyphens, []);
    assert ThirdTailLatin + [] == ThirdTailLatin && ThirdTailHyphens + [] == ThirdTailHyphens;
  }

  /** The spaces become hyphens. */
  lemma ThirdReserved()
    ensures Translate(Reserved, ThirdHeadLatin + ThirdTailLatin) == ThirdHeadHyphens + ThirdTailHyphens
  {
    ThirdHeadReserved();
    ThirdTailReserved();
  }

  /** The first piece around its question mark. */
  lemma ThirdHeadQuestion()
    ensures ThirdHeadHyphens == "kak-vas-zovut" + ['?'] + "-mena-z"
    ensures ThirdHeadClean == "kak-vas-zovut" + "-mena-z"
    ensures AllSlugChars("kak-vas-zovut") && AllSlugChars("-mena-z")
  {
  }

  lemma ThirdHeadWhitelist()
    ensures Whitelist(ThirdHeadHyphens) == ThirdHeadClean
  {
    ThirdHeadQuestion();
    WhitelistDrops("kak-vas-zovut", '?', "-mena-z");
  }

  lemma ThirdTailWhitelist()
    ensures Whitelist(ThirdTailHyphens) == ThirdTailHyphens
  {
    assert AllSlugChars(ThirdTailHyphens);
  }

  /** The whitelist removes the question mark. */
  lemma ThirdWhitelist()
    ensures Whitelist(ThirdHeadHyphens + ThirdTailHyphens) == ThirdHeadClean + ThirdTailHyphens
  {
    ThirdHeadWhitelist();
    ThirdTailWhitelist();
    WhitelistSplit(ThirdHeadHyphens, ThirdTailHyphens, ThirdHeadClean, ThirdTailHyphens);
  }

  /** The first cleaned piece holds no run of hyphens or dots. */
  lemma ThirdHeadRunFree()
    ensures NoRun('-', ThirdHeadClean) && NoRun('.', ThirdHeadClean)
  {
  }

  /** The first cleaned piece holds no "-/-" and ends with 'z'. */
  lemma ThirdHeadJoinFree()
    ensures NoJoin(ThirdHeadClean)
    ensures ThirdHeadClean != [] && ThirdHeadClean[|ThirdHeadClean| - 1] == 'z'
  {
  }

  /** The second cleaned piece holds no run of hyphens or dots. */
  lemma ThirdTailRunFree()
    ensures NoRun('-', ThirdTailHyphens) && NoRun('.', ThirdTailHyphens)
  {
  }

  /** The second cleaned piece holds no "-/-" and begins with 'o'. */
  lemma ThirdTailJoinFree()
    ensures NoJoin(ThirdTailHyphens)
    ensures ThirdTailHyphens != [] && ThirdTailHyphens[0] == 'o'
  {
  }

  /** There is no run of hyphens or dots to collapse. */
  lemma ThirdCollapse()
    ensures Collapse('-', ThirdHeadClean + ThirdTailHyphens) == ThirdHeadClean + ThirdTailHyphens
    ensures Collapse('.', ThirdHeadClean + ThirdTailHyphens) == ThirdHeadClean + ThirdTailHyphens
  {
    ThirdHeadRunFree();
    ThirdTailRunFree();
    ThirdHeadJoinFree();
    CollapseIdleSplit('-', ThirdHeadClean, ThirdTailHyphens);
    CollapseIdleSplit('.', ThirdHeadClean, ThirdTailHyphens);
  }

  /** The "-/-" pass finds nothing and the trailing dot is trimmed. */
  lemma ThirdEdges()
    ensures TrimEdges(ThirdHeadClean + ThirdTailHyphens) == ThirdResult
  {
    ThirdHeadJoinFree();
    ThirdTailJoinFree();
    JoinIdle(ThirdHeadClean);
    JoinIdle(ThirdTailHyphens);
    JoinJoint('z', 'o');
    TranslateIdleSplit(SlashJoin, ThirdHeadClean, ThirdTailHyphens);
    ThirdTrailingDot();
  }

  /** Put together, the cleaned pieces are the expected result followed by a dot. */
  lemma ThirdDotted()
    ensures ThirdHeadClean + ThirdTailHyphens == ThirdResult + "."
    ensures ThirdResult != [] && ThirdResult[0] == 'k' && ThirdResult[|ThirdResult| - 1] == 's'
  {
  }

  lemma ThirdTrailingDot()
    ensures TrimSlashesThenDots(ThirdHeadClean + ThirdTailHyphens) == ThirdResult
  {
    ThirdDotted();
    DotAfter(ThirdResult);
  }

  /** The lowered third case becomes "kak-vas-zovut-mena-zovut-chuck-norris". */
  lemma ThirdSlug()
    ensures Slug(ThirdLowered) == ThirdResult
  {
    ThirdPieces();
    ThirdCurrency();
    ThirdAccents();
    ThirdCyrillic();
    ThirdReserved();
    ThirdWhitelist();
    ThirdCollapse();
    ThirdEdges();
    SlugStages(ThirdHead + ThirdTail, ThirdHead + ThirdTail, ThirdHead + ThirdTail, ThirdHeadLatin + ThirdTailLatin,
      ThirdHeadHyphens + ThirdTailHyphens, ThirdHeadClean + ThirdTailHyphens, ThirdHeadClean + ThirdTailHyphens,
      ThirdHeadClean + ThirdTailHyphens, ThirdResult);
  }

  /**
   * `url('Как вас зовут? Меня зовут Чхучк Норрис.')` is 'kak-vas-zovut-mena-zovut-chuck-norris',
   * given that `mb_strtolower` lowers the three capitals.
   */
  lemma ThirdCase(lower: string -> string)
    requires lower(ThirdInput) == ThirdLowered
    ensures Url(Some(ThirdInput), lower) == Some(ThirdResult)
  {
    ThirdUntrimmed();
    ThirdSlug();
  }

  /** The third input is neither falsy nor padded with whitespace. */
  lemma ThirdUntrimmed()
    ensures !IsFalsy(Some(ThirdInput)) && Trim(ThirdInput) == ThirdInput
  {
    UntrimmedInput(ThirdInput);
  }

}
