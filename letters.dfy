/**
 * The entries of the accent and Cyrillic tables that the test cases of `url()` use. Each lemma
 * finds a letter in the piece of the table that holds it and checks that no later piece holds
 * it too, since in the union of the pieces a later piece would win.
 */
module Letters {
  import opened Strtr
  import opened Tables

  lemma AccentsUAcuteEntry()
    ensures "ú" in Accents2 && Accents2["ú"] == "u"
    ensures "ú" !in Accents3
  {
  }

  lemma AccentsUAcuteEntryLater1()
    ensures "ú" !in Accents4
    ensures "ú" !in Accents5
  {
  }

  lemma AccentsUAcuteEntryLater2()
    ensures "ú" !in Accents6
    ensures "ú" !in Accents7
  {
  }

  /** 'ú' becomes "u": piece 2 has it, no later piece does. */
  lemma AccentsUAcute()
    ensures CharImage(Accents, 'ú') == "u"
  {
    AccentsUAcuteEntry();
    AccentsUAcuteEntryLater1();
    AccentsUAcuteEntryLater2();
    UnionLookup(Accents1, Accents2, "ú");
    UnionLookup(Accents1 + Accents2, Accents3, "ú");
    UnionLookup(Accents1 + Accents2 + Accents3, Accents4, "ú");
    UnionLookup(Accents1 + Accents2 + Accents3 + Accents4, Accents5, "ú");
    UnionLookup(Accents1 + Accents2 + Accents3 + Accents4 + Accents5, Accents6, "ú");
    UnionLookup(Accents1 + Accents2 + Accents3 + Accents4 + Accents5 + Accents6, Accents7, "ú");
  }

  lemma AccentsUDiaeresisEntry()
    ensures "ü" in Accents2 && Accents2["ü"] == "u"
    ensures "ü" !in Accents3
  {
  }

  lemma AccentsUDiaeresisEntryLater1()
    ensures "ü" !in Accents4
    ensures "ü" !in Accents5
  {
  }

  lemma AccentsUDiaeresisEntryLater2()
    ensures "ü" !in Accents6
    ensures "ü" !in Accents7
  {
  }

  /** 'ü' becomes "u": piece 2 has it, no later piece does. */
  lemma AccentsUDiaeresis()
    ensures CharImage(Accents, 'ü') == "u"
  {
    AccentsUDiaeresisEntry();
    AccentsUDiaeresisEntryLater1();
    AccentsUDiaeresisEntryLater2();
    UnionLookup(Accents1, Accents2, "ü");
    UnionLookup(Accents1 + Accents2, Accents3, "ü");
    UnionLookup(Accents1 + Accents2 + Accents3, Accents4, "ü");
    UnionLookup(Accents1 + Accents2 + Accents3 + Accents4, Accents5, "ü");
    UnionLookup(Accents1 + Accents2 + Accents3 + Accents4 + Accents5, Accents6, "ü");
    UnionLookup(Accents1 + Accents2 + Accents3 + Accents4 + Accents5 + Accents6, Accents7, "ü");
  }

  lemma AccentsAOgonekEntry()
    ensures "ą" in Accents3 && Accents3["ą"] == "a"
    ensures "ą" !in Accents4
  {
  }

  lemma AccentsAOgonekEntryLater1()
    ensures "ą" !in Accents5
    ensures "ą" !in Accents6
  {
  }

  lemma AccentsAOgonekEntryLater2()
    ensures "ą" !in Accents7
  {
  }

  /** 'ą' becomes "a": piece 3 has it, no later piece does. */
  lemma AccentsAOgonek()
    ensures CharImage(Accents, 'ą') == "a"
  {
    AccentsAOgonekEntry();
    AccentsAOgonekEntryLater1();
    AccentsAOgonekEntryLater2();
    UnionLookup(Accents1 + Accents2, Accents3, "ą");
    UnionLookup(Accents1 + Accents2 + Accents3, Accents4, "ą");
    UnionLookup(Accents1 + Accents2 + Accents3 + Accents4, Accents5, "ą");
    UnionLookup(Accents1 + Accents2 + Accents3 + Accents4 + Accents5, Accents6, "ą");
    UnionLookup(Accents1 + Accents2 + Accents3 + Accents4 + Accents5 + Accents6, Accents7, "ą");
  }

  lemma AccentsODoubleAcuteEntry()
    ensures "ő" in Accents5 && Accents5["ő"] == "o"
    ensures "ő" !in Accents6
  {
  }

  lemma AccentsODoubleAcuteEntryLater()
    ensures "ő" !in Accents7
  {
  }

  /** 'ő' becomes "o": piece 5 has it, no later piece does. */
  lemma AccentsODoubleAcute()
    ensures CharImage(Accents, 'ő') == "o"
  {
    AccentsODoubleAcuteEntry();
    AccentsODoubleAcuteEntryLater();
    UnionLookup(Accents1 + Accents2 + Accents3 + Accents4, Accents5, "ő");
    UnionLookup(Accents1 + Accents2 + Accents3 + Accents4 + Accents5, Accents6, "ő");
    UnionLookup(Accents1 + Accents2 + Accents3 + Accents4 + Accents5 + Accents6, Accents7, "ő");
  }

  lemma CyrillicAEntry()
    ensures "а" in Cyrillic4 && Cyrillic4["а"] == "a"
    ensures "а" !in Cyrillic5
  {
  }

  lemma CyrillicAEntryLater()
    ensures "а" !in Cyrillic6
    ensures "а" !in Cyrillic7
  {
  }

  /** 'а' becomes "a": piece 4 has it, no later piece does. */
  lemma CyrillicA()
    ensures CharImage(Cyrillic, 'а') == "a"
  {
    CyrillicAEntry();
    CyrillicAEntryLater();
    UnionLookup(Cyrillic1 + Cyrillic2 + Cyrillic3, Cyrillic4, "а");
    UnionLookup(Cyrillic1 + Cyrillic2 + Cyrillic3 + Cyrillic4, Cyrillic5, "а");
    UnionLookup(Cyrillic1 + Cyrillic2 + Cyrillic3 + Cyrillic4 + Cyrillic5, Cyrillic6, "а");
    UnionLookup(Cyrillic1 + Cyrillic2 + Cyrillic3 + Cyrillic4 + Cyrillic5 + Cyrillic6, Cyrillic7, "а");
  }

  lemma CyrillicVeEntry()
    ensures "в" in Cyrillic4 && Cyrillic4["в"] == "v"
    ensures "в" !in Cyrillic5
  {
  }

  lemma CyrillicVeEntryLater()
    ensures "в" !in Cyrillic6
    ensures "в" !in Cyrillic7
  {
  }

  /** 'в' becomes "v": piece 4 has it, no later piece does. */
  lemma CyrillicVe()
    ensures CharImage(Cyrillic, 'в') == "v"
  {
    CyrillicVeEntry();
    CyrillicVeEntryLater();
    UnionLookup(Cyrillic1 + Cyrillic2 + Cyrillic3, Cyrillic4, "в");
    UnionLookup(Cyrillic1 + Cyrillic2 + Cyrillic3 + Cyrillic4, Cyrillic5, "в");
    UnionLookup(Cyrillic1 + Cyrillic2 + Cyrillic3 + Cyrillic4 + Cyrillic5, Cyrillic6, "в");
    UnionLookup(Cyrillic1 + Cyrillic2 + Cyrillic3 + Cyrillic4 + Cyrillic5 + Cyrillic6, Cyrillic7, "в");
  }

  lemma CyrillicIeEntry()
    ensures "е" in Cyrillic4 && Cyrillic4["е"] == "e"
    ensures "е" !in Cyrillic5
  {
  }

  lemma CyrillicIeEntryLater()
    ensures "е" !in Cyrillic6
    ensures "е" !in Cyrillic7
  {
  }

  /** 'е' becomes "e": piece 4 has it, no later piece does. */
  lemma CyrillicIe()
    ensures CharImage(Cyrillic, 'е') == "e"
  {
    CyrillicIeEntry();
    CyrillicIeEntryLater();
    UnionLookup(Cyrillic1 + Cyrillic2 + Cyrillic3, Cyrillic4, "е");
    UnionLookup(Cyrillic1 + Cyrillic2 + Cyrillic3 + Cyrillic4, Cyrillic5, "е");
    UnionLookup(Cyrillic1 + Cyrillic2 + Cyrillic3 + Cyrillic4 + Cyrillic5, Cyrillic6, "е");
    UnionLookup(Cyrillic1 + Cyrillic2 + Cyrillic3 + Cyrillic4 + Cyrillic5 + Cyrillic6, Cyrillic7, "е");
  }

  lemma CyrillicZeEntry()
    ensures "з" in Cyrillic5 && Cyrillic5["з"] == "z"
    ensures "з" !in Cyrillic6
  {
  }

  lemma CyrillicZeEntryLater()
    ensures "з" !in Cyrillic7
  {
  }

  /** 'з' becomes "z": piece 5 has it, no later piece does. */
  lemma CyrillicZe()
    ensures CharImage(Cyrillic, 'з') == "z"
  {
    CyrillicZeEntry();
    CyrillicZeEntryLater();
    UnionLookup(Cyrillic1 + Cyrillic2 + Cyrillic3 + Cyrillic4, Cyrillic5, "з");
    UnionLookup(Cyrillic1 + Cyrillic2 + Cyrillic3 + Cyrillic4 + Cyrillic5, Cyrillic6, "з");
    UnionLookup(Cyrillic1 + Cyrillic2 + Cyrillic3 + Cyrillic4 + Cyrillic5 + Cyrillic6, Cyrillic7, "з");
  }

  lemma CyrillicIEntry()
    ensures "и" in Cyrillic5 && Cyrillic5["и"] == "i"
    ensures "и" !in Cyrillic6
  {
  }

  lemma CyrillicIEntryLater()
    ensures "и" !in Cyrillic7
  {
  }

  /** 'и' becomes "i": piece 5 has it, no later piece does. */
  lemma CyrillicI()
    ensures CharImage(Cyrillic, 'и') == "i"
  {
    CyrillicIEntry();
    CyrillicIEntryLater();
    UnionLookup(Cyrillic1 + Cyrillic2 + Cyrillic3 + Cyrillic4, Cyrillic5, "и");
    UnionLookup(Cyrillic1 + Cyrillic2 + Cyrillic3 + Cyrillic4 + Cyrillic5, Cyrillic6, "и");
    UnionLookup(Cyrillic1 + Cyrillic2 + Cyrillic3 + Cyrillic4 + Cyrillic5 + Cyrillic6, Cyrillic7, "и");
  }

  lemma CyrillicKaEntry()
    ensures "к" in Cyrillic5 && Cyrillic5["к"] == "k"
    ensures "к" !in Cyrillic6
  {
  }

  lemma CyrillicKaEntryLater()
    ensures "к" !in Cyrillic7
  {
  }

  /** 'к' becomes "k": piece 5 has it, no later piece does. */
  lemma CyrillicKa()
    ensures CharImage(Cyrillic, 'к') == "k"
  {
    CyrillicKaEntry();
    CyrillicKaEntryLater();
    UnionLookup(Cyrillic1 + Cyrillic2 + Cyrillic3 + Cyrillic4, Cyrillic5, "к");
    UnionLookup(Cyrillic1 + Cyrillic2 + Cyrillic3 + Cyrillic4 + Cyrillic5, Cyrillic6, "к");
    UnionLookup(Cyrillic1 + Cyrillic2 + Cyrillic3 + Cyrillic4 + Cyrillic5 + Cyrillic6, Cyrillic7, "к");
  }

  lemma CyrillicEmEntry()
    ensures "м" in Cyrillic5 && Cyrillic5["м"] == "m"
    ensures "м" !in Cyrillic6
  {
  }

  lemma CyrillicEmEntryLater()
    ensures "м" !in Cyrillic7
  {
  }

  /** 'м' becomes "m": piece 5 has it, no later piece does. */
  lemma CyrillicEm()
    ensures CharImage(Cyrillic, 'м') == "m"
  {
    CyrillicEmEntry();
    CyrillicEmEntryLater();
    UnionLookup(Cyrillic1 + Cyrillic2 + Cyrillic3 + Cyrillic4, Cyrillic5, "м");
    UnionLookup(Cyrillic1 + Cyrillic2 + Cyrillic3 + Cyrillic4 + Cyrillic5, Cyrillic6, "м");
    UnionLookup(Cyrillic1 + Cyrillic2 + Cyrillic3 + Cyrillic4 + Cyrillic5 + Cyrillic6, Cyrillic7, "м");
  }

  lemma CyrillicEnEntry()
    ensures "н" in Cyrillic5 && Cyrillic5["н"] == "n"
    ensures "н" !in Cyrillic6
  {
  }

  lemma CyrillicEnEntryLater()
    ensures "н" !in Cyrillic7
  {
  }

  /** 'н' becomes "n": piece 5 has it, no later piece does. */
  lemma CyrillicEn()
    ensures CharImage(Cyrillic, 'н') == "n"
  {
    CyrillicEnEntry();
    CyrillicEnEntryLater();
    UnionLookup(Cyrillic1 + Cyrillic2 + Cyrillic3 + Cyrillic4, Cyrillic5, "н");
    UnionLookup(Cyrillic1 + Cyrillic2 + Cyrillic3 + Cyrillic4 + Cyrillic5, Cyrillic6, "н");
    UnionLookup(Cyrillic1 + Cyrillic2 + Cyrillic3 + Cyrillic4 + Cyrillic5 + Cyrillic6, Cyrillic7, "н");
  }

  lemma CyrillicOEntry()
    ensures "о" in Cyrillic6 && Cyrillic6["о"] == "o"
    ensures "о" !in Cyrillic7
  {
  }

  /** 'о' becomes "o": piece 6 has it, no later piece does. */
  lemma CyrillicO()
    ensures CharImage(Cyrillic, 'о') == "o"
  {
    CyrillicOEntry();
    UnionLookup(Cyrillic1 + Cyrillic2 + Cyrillic3 + Cyrillic4 + Cyrillic5, Cyrillic6, "о");
    UnionLookup(Cyrillic1 + Cyrillic2 + Cyrillic3 + Cyrillic4 + Cyrillic5 + Cyrillic6, Cyrillic7, "о");
  }

  lemma CyrillicErEntry()
    ensures "р" in Cyrillic6 && Cyrillic6["р"] == "r"
    ensures "р" !in Cyrillic7
  {
  }

  /** 'р' becomes "r": piece 6 has it, no later piece does. */
  lemma CyrillicEr()
    ensures CharImage(Cyrillic, 'р') == "r"
  {
    CyrillicErEntry();
    UnionLookup(Cyrillic1 + Cyrillic2 + Cyrillic3 + Cyrillic4 + Cyrillic5, Cyrillic6, "р");
    UnionLookup(Cyrillic1 + Cyrillic2 + Cyrillic3 + Cyrillic4 + Cyrillic5 + Cyrillic6, Cyrillic7, "р");
  }

  lemma CyrillicEsEntry()
    ensures "с" in Cyrillic6 && Cyrillic6["с"] == "s"
    ensures "с" !in Cyrillic7
  {
  }

  /** 'с' becomes "s": piece 6 has it, no later piece does. */
  lemma CyrillicEs()
    ensures CharImage(Cyrillic, 'с') == "s"
  {
    CyrillicEsEntry();
    UnionLookup(Cyrillic1 + Cyrillic2 + Cyrillic3 + Cyrillic4 + Cyrillic5, Cyrillic6, "с");
    UnionLookup(Cyrillic1 + Cyrillic2 + Cyrillic3 + Cyrillic4 + Cyrillic5 + Cyrillic6, Cyrillic7, "с");
  }

  lemma CyrillicTeEntry()
    ensures "т" in Cyrillic6 && Cyrillic6["т"] == "t"
    ensures "т" !in Cyrillic7
  {
  }

  /** 'т' becomes "t": piece 6 has it, no later piece does. */
  lemma CyrillicTe()
    ensures CharImage(Cyrillic, 'т') == "t"
  {
    CyrillicTeEntry();
    UnionLookup(Cyrillic1 + Cyrillic2 + Cyrillic3 + Cyrillic4 + Cyrillic5, Cyrillic6, "т");
    UnionLookup(Cyrillic1 + Cyrillic2 + Cyrillic3 + Cyrillic4 + Cyrillic5 + Cyrillic6, Cyrillic7, "т");
  }

  lemma CyrillicUEntry()
    ensures "у" in Cyrillic6 && Cyrillic6["у"] == "u"
    ensures "у" !in Cyrillic7
  {
  }

  /** 'у' becomes "u": piece 6 has it, no later piece does. */
  lemma CyrillicU()
    ensures CharImage(Cyrillic, 'у') == "u"
  {
    CyrillicUEntry();
    UnionLookup(Cyrillic1 + Cyrillic2 + Cyrillic3 + Cyrillic4 + Cyrillic5, Cyrillic6, "у");
    UnionLookup(Cyrillic1 + Cyrillic2 + Cyrillic3 + Cyrillic4 + Cyrillic5 + Cyrillic6, Cyrillic7, "у");
  }

  lemma CyrillicHaEntry()
    ensures "х" in Cyrillic6 && Cyrillic6["х"] == "h"
    ensures "х" !in Cyrillic7
  {
  }

  /** 'х' becomes "h": piece 6 has it, no later piece does. */
  lemma CyrillicHa()
    ensures CharImage(Cyrillic, 'х') == "h"
  {
    CyrillicHaEntry();
    UnionLookup(Cyrillic1 + Cyrillic2 + Cyrillic3 + Cyrillic4 + Cyrillic5, Cyrillic6, "х");
    UnionLookup(Cyrillic1 + Cyrillic2 + Cyrillic3 + Cyrillic4 + Cyrillic5 + Cyrillic6, Cyrillic7, "х");
  }

  lemma CyrillicCheEntry()
    ensures "ч" in Cyrillic6 && Cyrillic6["ч"] == "c"
    ensures "ч" !in Cyrillic7
  {
  }

  /** 'ч' becomes "c": piece 6 has it, no later piece does. */
  lemma CyrillicChe()
    ensures CharImage(Cyrillic, 'ч') == "c"
  {
    CyrillicCheEntry();
    UnionLookup(Cyrillic1 + Cyrillic2 + Cyrillic3 + Cyrillic4 + Cyrillic5, Cyrillic6, "ч");
    UnionLookup(Cyrillic1 + Cyrillic2 + Cyrillic3 + Cyrillic4 + Cyrillic5 + Cyrillic6, Cyrillic7, "ч");
  }

  lemma CyrillicYaEntry()
    ensures "я" in Cyrillic7 && Cyrillic7["я"] == "a"
  {
  }

  /** 'я' becomes "a": piece 7 has it, the last one. */
  lemma CyrillicYa()
    ensures CharImage(Cyrillic, 'я') == "a"
  {
    CyrillicYaEntry();
    UnionLookup(Cyrillic1 + Cyrillic2 + Cyrillic3 + Cyrillic4 + Cyrillic5 + Cyrillic6, Cyrillic7, "я");
  }

}
