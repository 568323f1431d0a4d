/** The language picker screen: a fixed table of 81 languages, each a display name and a
    language code, offered in a picker whose only state is the selected code. */
module LanguageSelection {
  import opened Wrappers

  /** One row of the table. The code is used as the picker item's key and value. */
  datatype Language = Language(name: string, code: string)

  const Part0: seq<Language> := [
    Language("Albanian", "sq"),
    Language("Amharic", "am"),
    Language("Arabic", "ar"),
    Language("Armenian", "hy"),
    Language("Azerbaijani", "az"),
    Language("Basque", "eu"),
    Language("Bengali", "bn"),
    Language("Bosnian", "bs"),
    Language("Bulgarian", "bg")
  ]

  const Part1: seq<Language> := [
    Language("Burmese / Myanmar", "my"),
    Language("Catalan", "ca"),
    Language("Chinese (Simplified)", "zh"),
    Language("Chinese (Traditional)", "zh-TW"),
    Language("Croatian", "hr"),
    Language("Czech", "cs"),
    Language("Danish", "da"),
    Language("Dutch", "nl"),
    Language("English", "en")
  ]

  const Part2: seq<Language> := [
    Language("Estonian", "et"),
    Language("Filipino / Tagalog", "tl"),
    Language("Finnish", "fi"),
    Language("French", "fr"),
    Language("Galician", "gl"),
    Language("Georgian", "ka"),
    Language("German", "de"),
    Language("Greek", "el"),
    Language("Gujarati", "gu")
  ]

  const Part3: seq<Language> := [
    Language("Haitian Creole", "ht"),
    Language("Hebrew", "he"),
    Language("Hindi", "hi"),
    Language("Hungarian", "hu"),
    Language("Icelandic", "is"),
    Language("Igbo", "ig"),
    Language("Indonesian", "id"),
    Language("Irish", "ga"),
    Language("Italian", "it")
  ]

  const Part4: seq<Language> := [
    Language("Japanese", "ja"),
    Language("Kannada", "kn"),
    Language("Kazakh", "kk"),
    Language("Khmer", "km"),
    Language("Korean", "ko"),
    Language("Lao", "lo"),
    Language("Latvian", "lv"),
    Language("Lithuanian", "lt"),
    Language("Macedonian", "mk")
  ]

  const Part5: seq<Language> := [
    Language("Malay", "ms"),
    Language("Malay (Brunei)", "ms-BN"),
    Language("Malayalam", "ml"),
    Language("Marathi", "mr"),
    Language("Mongolian", "mn"),
    Language("Nepali", "ne"),
    Language("Norwegian", "no"),
    Language("Pashto", "ps"),
    Language("Persian / Farsi", "fa")
  ]

  const Part6: seq<Language> := [
    Language("Polish", "pl"),
    Language("Portuguese", "pt"),
    Language("Punjabi", "pa"),
    Language("Romanian", "ro"),
    Language("Russian", "ru"),
    Language("Scottish Gaelic", "gd"),
    Language("Serbian (Cyrillic)", "sr-Cyrl"),
    Language("Serbian (Latin)", "sr-Latn"),
    Language("Sinhala", "si")
  ]

  const Part7: seq<Language> := [
    Language("Slovak", "sk"),
    Language("Slovenian", "sl"),
    Language("Spanish", "es"),
    Language("Swahili", "sw"),
    Language("Swedish", "sv"),
    Language("Tajik", "tg"),
    Language("Tamil", "ta"),
    Language("Telugu", "te"),
    Language("Thai", "th")
  ]

  const Part8: seq<Language> := [
    Language("Turkish", "tr"),
    Language("Ukrainian", "uk"),
    Language("Urdu", "ur"),
    Language("Uzbek", "uz"),
    Language("Vietnamese", "vi"),
    Language("Welsh", "cy"),
    Language("Xhosa", "xh"),
    Language("Yoruba", "yo"),
    Language("Zulu", "zu")
  ]

  const Block0: seq<Language> := Part0 + Part1 + Part2
  const Block1: seq<Language> := Part3 + Part4 + Part5
  const Block2: seq<Language> := Part6 + Part7 + Part8

  /** The table, in its listing order, written as three blocks of three runs of nine rows. */
  const Languages: seq<Language> := Block0 + Block1 + Block2

  lemma TableSize()
    ensures |Languages| == 81
  {
  }

  /** An integer fingerprint of a code of at least two characters: its length, its first two
      characters and its last one. */
  function Fingerprint(code: string): int
    requires |code| >= 2
  {
    ((|code| * 128 + code[0] as int) * 128 + code[1] as int) * 128 + code[|code| - 1] as int
  }

  /** The table position whose code has the given fingerprint, or -1 when no code has it
      (a search tree over the sorted fingerprints). */
  function PositionOfFingerprint(f: int): int
  {
    if f < 5978740 then
      if f < 5894756 then
        if f < 5845733 then
          if f < 5814771 then
            if f < 5799290 then
              if f < 5798258 then
                if f == 5797613 then 1 else -1
              else
                if f == 5798258 then 2 else -1
            else
              if f < 5813223 then
                if f == 5799290 then 4 else -1
              else
                if f < 5814126 then
                  if f == 5813223 then 8 else -1
                else
                  if f == 5814126 then 6 else -1
          else
            if f < 5831155 then
              if f < 5828833 then
                if f == 5814771 then 7 else -1
              else
                if f == 5828833 then 10 else -1
            else
              if f < 5831929 then
                if f == 5831155 then 14 else -1
              else
                if f < 5845217 then
                  if f == 5831929 then 77 else -1
                else
                  if f == 5845217 then 15 else -1
        else
          if f < 5864181 then
            if f < 5863278 then
              if f < 5863020 then
                if f == 5845733 then 24 else -1
              else
                if f == 5863020 then 25 else -1
            else
              if f < 5863923 then
                if f == 5863278 then 17 else -1
              else
                if f < 5864052 then
                  if f == 5863923 then 65 else -1
                else
                  if f == 5864052 then 18 else -1
          else
            if f < 5879017 then
              if f < 5877985 then
                if f == 5864181 then 5 else -1
              else
                if f == 5877985 then 53 else -1
            else
              if f < 5880178 then
                if f == 5879017 then 20 else -1
              else
                if f < 5894369 then
                  if f == 5880178 then 21 else -1
                else
                  if f == 5894369 then 34 else -1
      else
        if f < 5927911 then
          if f < 5912946 then
            if f < 5896949 then
              if f < 5895788 then
                if f == 5894756 then 59 else -1
              else
                if f == 5895788 then 22 else -1
            else
              if f < 5911269 then
                if f == 5896949 then 26 else -1
              else
                if f < 5911785 then
                  if f == 5911269 then 28 else -1
                else
                  if f == 5911785 then 29 else -1
          else
            if f < 5913333 then
              if f < 5913204 then
                if f == 5912946 then 13 else -1
              else
                if f == 5913204 then 27 else -1
            else
              if f < 5913849 then
                if f == 5913333 then 30 else -1
              else
                if f < 5927524 then
                  if f == 5913849 then 3 else -1
                else
                  if f == 5927524 then 33 else -1
        else
          if f < 5961195 then
            if f < 5929588 then
              if f < 5929459 then
                if f == 5927911 then 32 else -1
              else
                if f == 5929459 then 31 else -1
            else
              if f < 5943521 then
                if f == 5929588 then 35 else -1
              else
                if f < 5959905 then
                  if f == 5943521 then 36 else -1
                else
                  if f == 5959905 then 23 else -1
          else
            if f < 5961582 then
              if f < 5961453 then
                if f == 5961195 then 38 else -1
              else
                if f == 5961453 then 39 else -1
            else
              if f < 5961711 then
                if f == 5961582 then 37 else -1
              else
                if f < 5978095 then
                  if f == 5961711 then 40 else -1
                else
                  if f == 5978095 then 41 else -1
    else
      if f < 6093041 then
        if f < 6010863 then
          if f < 5994866 then
            if f < 5993963 then
              if f < 5978998 then
                if f == 5978740 then 43 else -1
              else
                if f == 5978998 then 42 else -1
            else
              if f < 5994092 then
                if f == 5993963 then 44 else -1
              else
                if f < 5994350 then
                  if f == 5994092 then 47 else -1
                else
                  if f == 5994350 then 49 else -1
          else
            if f < 5995769 then
              if f < 5994995 then
                if f == 5994866 then 48 else -1
              else
                if f == 5994995 then 45 else -1
            else
              if f < 6009573 then
                if f == 5995769 then 9 else -1
              else
                if f < 6010476 then
                  if f == 6009573 then 50 else -1
                else
                  if f == 6010476 then 16 else -1
        else
          if f < 6076399 then
            if f < 6043244 then
              if f < 6041825 then
                if f == 6010863 then 51 else -1
              else
                if f == 6041825 then 56 else -1
            else
              if f < 6044147 then
                if f == 6043244 then 54 else -1
              else
                if f < 6044276 then
                  if f == 6044147 then 52 else -1
                else
                  if f == 6044276 then 55 else -1
          else
            if f < 6092009 then
              if f < 6077173 then
                if f == 6076399 then 57 else -1
              else
                if f == 6077173 then 58 else -1
            else
              if f < 6092267 then
                if f == 6092009 then 62 else -1
              else
                if f < 6092396 then
                  if f == 6092267 then 63 else -1
                else
                  if f == 6092396 then 64 else -1
      else
        if f < 6125938 then
          if f < 6108135 then
            if f < 6093815 then
              if f < 6093686 then
                if f == 6093041 then 0 else -1
              else
                if f == 6093686 then 67 else -1
            else
              if f < 6107361 then
                if f == 6093815 then 66 else -1
              else
                if f < 6107877 then
                  if f == 6107361 then 69 else -1
                else
                  if f == 6107877 then 70 else -1
          else
            if f < 6108780 then
              if f < 6108264 then
                if f == 6108135 then 68 else -1
              else
                if f == 6108264 then 71 else -1
            else
              if f < 6109554 then
                if f == 6108780 then 19 else -1
              else
                if f < 6125035 then
                  if f == 6109554 then 72 else -1
                else
                  if f == 6125035 then 73 else -1
        else
          if f < 6206568 then
            if f < 6141161 then
              if f < 6126970 then
                if f == 6125938 then 74 else -1
              else
                if f == 6126970 then 75 else -1
            else
              if f < 6173800 then
                if f == 6141161 then 76 else -1
              else
                if f < 6191087 then
                  if f == 6173800 then 78 else -1
                else
                  if f == 6191087 then 79 else -1
          else
            if f < 12498007 then
              if f < 6208245 then
                if f == 6206568 then 11 else -1
              else
                if f < 12286414 then
                  if f == 6208245 then 80 else -1
                else
                  if f == 12286414 then 46 else -1
            else
              if f < 16578924 then
                if f == 12498007 then 12 else -1
              else
                if f < 16578926 then
                  if f == 16578924 then 60 else -1
                else
                  if f == 16578926 then 61 else -1
  }

  /** The rows of s, placed from position base on, carry codes whose fingerprint leads back
      to their own position. */
  ghost predicate Fingerprinted(s: seq<Language>, base: int)
  {
    forall j :: 0 <= j < |s| ==> |s[j].code| >= 2 && PositionOfFingerprint(Fingerprint(s[j].code)) == base + j
  }

  lemma FingerprintedAppend(a: seq<Language>, b: seq<Language>, base: int)
    requires Fingerprinted(a, base) && Fingerprinted(b, base + |a|)
    ensures Fingerprinted(a + b, base)
  {
    forall j | |a| <= j < |a| + |b|
      ensures |(a + b)[j].code| >= 2 && PositionOfFingerprint(Fingerprint((a + b)[j].code)) == base + j
    {
      assert (a + b)[j] == b[j - |a|];
    }
  }

  lemma Part0Fingerprinted()
    ensures Fingerprinted(Part0, 0)
  {
    forall j | 0 <= j < |Part0|
      ensures |Part0[j].code| >= 2 && PositionOfFingerprint(Fingerprint(Part0[j].code)) == 0 + j
    {
      assert j == 0 || j == 1 || j == 2 || j == 3 || j == 4 || j == 5 || j == 6 || j == 7 || j == 8;
    }
  }

  lemma Part1Fingerprinted()
    ensures Fingerprinted(Part1, 9)
  {
    forall j | 0 <= j < |Part1|
      ensures |Part1[j].code| >= 2 && PositionOfFingerprint(Fingerprint(Part1[j].code)) == 9 + j
    {
      assert j == 0 || j == 1 || j == 2 || j == 3 || j == 4 || j == 5 || j == 6 || j == 7 || j == 8;
    }
  }

  lemma Part2Fingerprinted()
    ensures Fingerprinted(Part2, 18)
  {
    forall j | 0 <= j < |Part2|
      ensures |Part2[j].code| >= 2 && PositionOfFingerprint(Fingerprint(Part2[j].code)) == 18 + j
    {
      assert j == 0 || j == 1 || j == 2 || j == 3 || j == 4 || j == 5 || j == 6 || j == 7 || j == 8;
    }
  }

  lemma Part3Fingerprinted()
    ensures Fingerprinted(Part3, 27)
  {
    forall j | 0 <= j < |Part3|
      ensures |Part3[j].code| >= 2 && PositionOfFingerprint(Fingerprint(Part3[j].code)) == 27 + j
    {
      assert j == 0 || j == 1 || j == 2 || j == 3 || j == 4 || j == 5 || j == 6 || j == 7 || j == 8;
    }
  }

  lemma Part4Fingerprinted()
    ensures Fingerprinted(Part4, 36)
  {
    forall j | 0 <= j < |Part4|
      ensures |Part4[j].code| >= 2 && PositionOfFingerprint(Fingerprint(Part4[j].code)) == 36 + j
    {
      assert j == 0 || j == 1 || j == 2 || j == 3 || j == 4 || j == 5 || j == 6 || j == 7 || j == 8;
    }
  }

  lemma Part5Fingerprinted()
    ensures Fingerprinted(Part5, 45)
  {
    forall j | 0 <= j < |Part5|
      ensures |Part5[j].code| >= 2 && PositionOfFingerprint(Fingerprint(Part5[j].code)) == 45 + j
    {
      assert j == 0 || j == 1 || j == 2 || j == 3 || j == 4 || j == 5 || j == 6 || j == 7 || j == 8;
    }
  }

  lemma Part6Fingerprinted()
    ensures Fingerprinted(Part6, 54)
  {
    forall j | 0 <= j < |Part6|
      ensures |Part6[j].code| >= 2 && PositionOfFingerprint(Fingerprint(Part6[j].code)) == 54 + j
    {
      assert j == 0 || j == 1 || j == 2 || j == 3 || j == 4 || j == 5 || j == 6 || j == 7 || j == 8;
    }
  }

  lemma Part7Fingerprinted()
    ensures Fingerprinted(Part7, 63)
  {
    forall j | 0 <= j < |Part7|
      ensures |Part7[j].code| >= 2 && PositionOfFingerprint(Fingerprint(Part7[j].code)) == 63 + j
    {
      assert j == 0 || j == 1 || j == 2 || j == 3 || j == 4 || j == 5 || j == 6 || j == 7 || j == 8;
    }
  }

  lemma Part8Fingerprinted()
    ensures Fingerprinted(Part8, 72)
  {
    forall j | 0 <= j < |Part8|
      ensures |Part8[j].code| >= 2 && PositionOfFingerprint(Fingerprint(Part8[j].code)) == 72 + j
    {
      assert j == 0 || j == 1 || j == 2 || j == 3 || j == 4 || j == 5 || j == 6 || j == 7 || j == 8;
    }
  }

  lemma BlocksFingerprinted()
    ensures Fingerprinted(Block0, 0) && Fingerprinted(Block1, 27) && Fingerprinted(Block2, 54)
  {
    Part0Fingerprinted();
    Part1Fingerprinted();
    Part2Fingerprinted();
    FingerprintedAppend(Part0, Part1, 0);
    FingerprintedAppend(Part0 + Part1, Part2, 0);
    Part3Fingerprinted();
    Part4Fingerprinted();
    Part5Fingerprinted();
    FingerprintedAppend(Part3, Part4, 27);
    FingerprintedAppend(Part3 + Part4, Part5, 27);
    Part6Fingerprinted();
    Part7Fingerprinted();
    Part8Fingerprinted();
    FingerprintedAppend(Part6, Part7, 54);
    FingerprintedAppend(Part6 + Part7, Part8, 54);
  }

  lemma TableFingerprinted()
    ensures Fingerprinted(Languages, 0)
  {
    BlocksFingerprinted();
    FingerprintedAppend(Block0, Block1, 0);
    FingerprintedAppend(Block0 + Block1, Block2, 0);
  }

  /** The codes are pairwise distinct, as their use as the picker items' keys requires. */
  lemma CodesDistinct()
    ensures forall i, j :: 0 <= i < j < |Languages| ==> Languages[i].code != Languages[j].code
  {
    TableFingerprinted();
  }

  /** b extends a's first k characters with a greater character at k, or a is exactly the
      first k characters of the longer b. */
  predicate DiffersFirstAt(a: string, b: string, k: nat)
  {
    && k <= |a| && k <= |b| && a[..k] == b[..k]
    && ((k == |a| && k < |b|) || (k < |a| && k < |b| && a[k] < b[k]))
  }

  /** Lexicographic order by character code, as JavaScript compares strings. */
  ghost predicate LexLess(a: string, b: string)
  {
    exists k: nat :: DiffersFirstAt(a, b, k)
  }

  lemma LexLessTransitive(a: string, b: string, c: string)
    requires LexLess(a, b) && LexLess(b, c)
    ensures LexLess(a, c)
  {
    var k1: nat :| DiffersFirstAt(a, b, k1);
    var k2: nat :| DiffersFirstAt(b, c, k2);
    if k1 < k2 {
      assert b[..k2][..k1] == b[..k1] && c[..k2][..k1] == c[..k1];
      assert DiffersFirstAt(a, c, k1);
    } else if k2 < k1 {
      assert a[..k1][..k2] == a[..k2] && b[..k1][..k2] == b[..k2];
      assert a[k2] == a[..k1][k2] == b[..k1][k2] == b[k2];
      assert DiffersFirstAt(a, c, k2);
    } else {
      assert DiffersFirstAt(a, c, k1);
    }
  }

  lemma LexLessIrreflexive(a: string, b: string)
    requires LexLess(a, b)
    ensures a != b
  {
  }

  /** Each row's name comes before the next row's. */
  ghost predicate Ascending(s: seq<Language>)
  {
    forall j :: 0 <= j < |s| - 1 ==> LexLess(s[j].name, s[j + 1].name)
  }

  lemma AscendingAppend(a: seq<Language>, b: seq<Language>)
    requires Ascending(a) && Ascending(b)
    requires a != [] && b != [] ==> LexLess(a[|a| - 1].name, b[0].name)
    ensures Ascending(a + b)
  {
    forall j | 0 <= j < |a + b| - 1 ensures LexLess((a + b)[j].name, (a + b)[j + 1].name) {
      if j >= |a| {
        assert (a + b)[j] == b[j - |a|] && (a + b)[j + 1] == b[j + 1 - |a|];
      }
    }
  }

  lemma Part0Ascending()
    ensures Ascending(Part0)
  {
    assert DiffersFirstAt(Part0[0].name, Part0[1].name, 1);
    assert DiffersFirstAt(Part0[1].name, Part0[2].name, 1);
    assert DiffersFirstAt(Part0[2].name, Part0[3].name, 2);
    assert DiffersFirstAt(Part0[3].name, Part0[4].name, 1);
    assert DiffersFirstAt(Part0[4].name, Part0[5].name, 0);
    assert DiffersFirstAt(Part0[5].name, Part0[6].name, 1);
    assert DiffersFirstAt(Part0[6].name, Part0[7].name, 1);
    assert DiffersFirstAt(Part0[7].name, Part0[8].name, 1);
  }

  lemma Part1Ascending()
    ensures Ascending(Part1)
  {
    assert DiffersFirstAt(Part1[0].name, Part1[1].name, 0);
    assert DiffersFirstAt(Part1[1].name, Part1[2].name, 1);
    assert DiffersFirstAt(Part1[2].name, Part1[3].name, 9);
    assert DiffersFirstAt(Part1[3].name, Part1[4].name, 1);
    assert DiffersFirstAt(Part1[4].name, Part1[5].name, 1);
    assert DiffersFirstAt(Part1[5].name, Part1[6].name, 0);
    assert DiffersFirstAt(Part1[6].name, Part1[7].name, 1);
    assert DiffersFirstAt(Part1[7].name, Part1[8].name, 0);
  }

  lemma Part2Ascending()
    ensures Ascending(Part2)
  {
    assert DiffersFirstAt(Part2[0].name, Part2[1].name, 0);
    assert DiffersFirstAt(Part2[1].name, Part2[2].name, 2);
    assert DiffersFirstAt(Part2[2].name, Part2[3].name, 1);
    assert DiffersFirstAt(Part2[3].name, Part2[4].name, 0);
    assert DiffersFirstAt(Part2[4].name, Part2[5].name, 1);
    assert DiffersFirstAt(Part2[5].name, Part2[6].name, 2);
    assert DiffersFirstAt(Part2[6].name, Part2[7].name, 1);
    assert DiffersFirstAt(Part2[7].name, Part2[8].name, 1);
  }

  lemma Part3Ascending()
    ensures Ascending(Part3)
  {
    assert DiffersFirstAt(Part3[0].name, Part3[1].name, 1);
    assert DiffersFirstAt(Part3[1].name, Part3[2].name, 1);
    assert DiffersFirstAt(Part3[2].name, Part3[3].name, 1);
    assert DiffersFirstAt(Part3[3].name, Part3[4].name, 0);
    assert DiffersFirstAt(Part3[4].name, Part3[5].name, 1);
    assert DiffersFirstAt(Part3[5].name, Part3[6].name, 1);
    assert DiffersFirstAt(Part3[6].name, Part3[7].name, 1);
    assert DiffersFirstAt(Part3[7].name, Part3[8].name, 1);
  }

  lemma Part4Ascending()
    ensures Ascending(Part4)
  {
    assert DiffersFirstAt(Part4[0].name, Part4[1].name, 0);
    assert DiffersFirstAt(Part4[1].name, Part4[2].name, 2);
    assert DiffersFirstAt(Part4[2].name, Part4[3].name, 1);
    assert DiffersFirstAt(Part4[3].name, Part4[4].name, 1);
    assert DiffersFirstAt(Part4[4].name, Part4[5].name, 0);
    assert DiffersFirstAt(Part4[5].name, Part4[6].name, 2);
    assert DiffersFirstAt(Part4[6].name, Part4[7].name, 1);
    assert DiffersFirstAt(Part4[7].name, Part4[8].name, 0);
  }

  lemma Part5Ascending()
    ensures Ascending(Part5)
  {
    assert DiffersFirstAt(Part5[0].name, Part5[1].name, 5);
    assert DiffersFirstAt(Part5[1].name, Part5[2].name, 5);
    assert DiffersFirstAt(Part5[2].name, Part5[3].name, 2);
    assert DiffersFirstAt(Part5[3].name, Part5[4].name, 1);
    assert DiffersFirstAt(Part5[4].name, Part5[5].name, 0);
    assert DiffersFirstAt(Part5[5].name, Part5[6].name, 1);
    assert DiffersFirstAt(Part5[6].name, Part5[7].name, 0);
    assert DiffersFirstAt(Part5[7].name, Part5[8].name, 1);
  }

  lemma Part6Ascending()
    ensures Ascending(Part6)
  {
    assert DiffersFirstAt(Part6[0].name, Part6[1].name, 2);
    assert DiffersFirstAt(Part6[1].name, Part6[2].name, 1);
    assert DiffersFirstAt(Part6[2].name, Part6[3].name, 0);
    assert DiffersFirstAt(Part6[3].name, Part6[4].name, 1);
    assert DiffersFirstAt(Part6[4].name, Part6[5].name, 0);
    assert DiffersFirstAt(Part6[5].name, Part6[6].name, 1);
    assert DiffersFirstAt(Part6[6].name, Part6[7].name, 9);
    assert DiffersFirstAt(Part6[7].name, Part6[8].name, 1);
  }

  lemma Part7Ascending()
    ensures Ascending(Part7)
  {
    assert DiffersFirstAt(Part7[0].name, Part7[1].name, 4);
    assert DiffersFirstAt(Part7[1].name, Part7[2].name, 1);
    assert DiffersFirstAt(Part7[2].name, Part7[3].name, 1);
    assert DiffersFirstAt(Part7[3].name, Part7[4].name, 2);
    assert DiffersFirstAt(Part7[4].name, Part7[5].name, 0);
    assert DiffersFirstAt(Part7[5].name, Part7[6].name, 2);
    assert DiffersFirstAt(Part7[6].name, Part7[7].name, 1);
    assert DiffersFirstAt(Part7[7].name, Part7[8].name, 1);
  }

  lemma Part8Ascending()
    ensures Ascending(Part8)
  {
    assert DiffersFirstAt(Part8[0].name, Part8[1].name, 0);
    assert DiffersFirstAt(Part8[1].name, Part8[2].name, 1);
    assert DiffersFirstAt(Part8[2].name, Part8[3].name, 1);
    assert DiffersFirstAt(Part8[3].name, Part8[4].name, 0);
    assert DiffersFirstAt(Part8[4].name, Part8[5].name, 0);
    assert DiffersFirstAt(Part8[5].name, Part8[6].name, 0);
    assert DiffersFirstAt(Part8[6].name, Part8[7].name, 0);
    assert DiffersFirstAt(Part8[7].name, Part8[8].name, 0);
  }

  lemma PartBoundariesAscending()
    ensures LexLess(Part0[8].name, Part1[0].name)
    ensures LexLess(Part1[8].name, Part2[0].name)
    ensures LexLess(Part2[8].name, Part3[0].name)
    ensures LexLess(Part3[8].name, Part4[0].name)
    ensures LexLess(Part4[8].name, Part5[0].name)
    ensures LexLess(Part5[8].name, Part6[0].name)
    ensures LexLess(Part6[8].name, Part7[0].name)
    ensures LexLess(Part7[8].name, Part8[0].name)
  {
    assert DiffersFirstAt(Part0[8].name, Part1[0].name, 2);
    assert DiffersFirstAt(Part1[8].name, Part2[0].name, 1);
    assert DiffersFirstAt(Part2[8].name, Part3[0].name, 0);
    assert DiffersFirstAt(Part3[8].name, Part4[0].name, 0);
    assert DiffersFirstAt(Part4[8].name, Part5[0].name, 2);
    assert DiffersFirstAt(Part5[8].name, Part6[0].name, 1);
    assert DiffersFirstAt(Part6[8].name, Part7[0].name, 1);
    assert DiffersFirstAt(Part7[8].name, Part8[0].name, 1);
  }

  lemma Block0Ascending()
    ensures Ascending(Block0)
    ensures Block0[0] == Part0[0] && Block0[26] == Part2[8]
  {
    Part0Ascending();
    Part1Ascending();
    Part2Ascending();
    PartBoundariesAscending();
    AscendingAppend(Part0, Part1);
    AscendingAppend(Part0 + Part1, Part2);
  }

  lemma Block1Ascending()
    ensures Ascending(Block1)
    ensures Block1[0] == Part3[0] && Block1[26] == Part5[8]
  {
    Part3Ascending();
    Part4Ascending();
    Part5Ascending();
    PartBoundariesAscending();
    AscendingAppend(Part3, Part4);
    AscendingAppend(Part3 + Part4, Part5);
  }

  lemma Block2Ascending()
    ensures Ascending(Block2)
    ensures Block2[0] == Part6[0] && Block2[26] == Part8[8]
  {
    Part6Ascending();
    Part7Ascending();
    Part8Ascending();
    PartBoundariesAscending();
    AscendingAppend(Part6, Part7);
    AscendingAppend(Part6 + Part7, Part8);
  }

  lemma TableAscending()
    ensures Ascending(Languages)
  {
    Block0Ascending();
    Block1Ascending();
    Block2Ascending();
    PartBoundariesAscending();
    AscendingAppend(Block0, Block1);
    AscendingAppend(Block0 + Block1, Block2);
  }

  /** Neighbours in order imply order between any two rows. */
  lemma {:induction false} AscendingSorted(s: seq<Language>)
    requires Ascending(s)
    ensures forall i, j :: 0 <= i < j < |s| ==> LexLess(s[i].name, s[j].name)
    decreases |s|
  {
    if |s| > 1 {
      var init := s[..|s| - 1];
      assert Ascending(init) by {
        forall j | 0 <= j < |init| - 1 ensures LexLess(init[j].name, init[j + 1].name) {
          assert init[j] == s[j] && init[j + 1] == s[j + 1];
        }
      }
      AscendingSorted(init);
      forall i, j | 0 <= i < j < |s| ensures LexLess(s[i].name, s[j].name) {
        assert forall m :: 0 <= m < |init| ==> init[m] == s[m];
        if j == |s| - 1 && i < j - 1 {
          LexLessTransitive(s[i].name, s[j - 1].name, s[j].name);
        }
      }
    }
  }

  /** The names are listed in ascending order, and hence pairwise distinct. */
  lemma NamesAscendingAndDistinct()
    ensures forall i, j :: 0 <= i < j < |Languages| ==> LexLess(Languages[i].name, Languages[j].name)
    ensures forall i, j :: 0 <= i < j < |Languages| ==> Languages[i].name != Languages[j].name
  {
    TableAscending();
    AscendingSorted(Languages);
    forall i, j | 0 <= i < j < |Languages| ensures Languages[i].name != Languages[j].name {
      LexLessIrreflexive(Languages[i].name, Languages[j].name);
    }
  }

  /** A picker item: its list key, the text shown and the value reported on selection. */
  datatype PickerItem = PickerItem(key: string, text: string, value: string)

  /** The picker's items, built by mapping each table row to an item keyed and valued by its
      code and showing its name. */
  function PickerItems(table: seq<Language>): (items: seq<PickerItem>)
    ensures |items| == |table|
    ensures forall i :: 0 <= i < |table| ==>
      items[i].key == table[i].code && items[i].value == table[i].code && items[i].text == table[i].name
  {
    seq(|table|, i requires 0 <= i < |table| => PickerItem(table[i].code, table[i].name, table[i].code))
  }

  /** The picker over the language table has one item per row, in table order, and no two
      items share a key. */
  lemma PickerKeysDistinct()
    ensures |PickerItems(Languages)| == 81
    ensures forall i, j :: 0 <= i < j < |PickerItems(Languages)| ==>
      PickerItems(Languages)[i].key != PickerItems(Languages)[j].key
  {
    CodesDistinct();
  }

  /** The codes of a table, in order. */
  function Codes(table: seq<Language>): (codes: seq<string>)
    ensures |codes| == |table|
    ensures forall i :: 0 <= i < |table| ==> codes[i] == table[i].code
  {
    seq(|table|, i requires 0 <= i < |table| => table[i].code)
  }

  /** Every value the picker can report is the code of a table row. */
  lemma PickerValuesAreCodes(i: nat)
    requires i < |PickerItems(Languages)|
    ensures PickerItems(Languages)[i].value in Codes(Languages)
  {
    assert Codes(Languages)[i] == PickerItems(Languages)[i].value;
  }

  /** The language picker screen. Its one piece of state is the selected code, undefined
      until the user picks an item. */
  class SelectLanguageScreen {
    var selectedLanguage: Option<string>

    /** Once set, the selection is a code of the table. */
    ghost predicate Valid()
      reads this
    {
      selectedLanguage.Some? ==> selectedLanguage.value in Codes(Languages)
    }

    constructor ()
      ensures selectedLanguage == None
      ensures Valid()
    {
      selectedLanguage := None;
    }

    /** The picker's change handler: the reported item's value becomes the selection. The
        picker reports an item of its own list together with its position. */
    method OnValueChange(itemValue: string, itemIndex: nat)
      requires itemIndex < |PickerItems(Languages)|
      requires itemValue == PickerItems(Languages)[itemIndex].value
      modifies this
      ensures selectedLanguage == Some(Languages[itemIndex].code)
      ensures Valid()
    {
      PickerValuesAreCodes(itemIndex);
      selectedLanguage := Some(itemValue);
    }

    /** The caption under the picker: "Selected: " followed by the code, or by nothing while
        the selection is undefined. */
    function Caption(): (caption: string)
      reads this
      ensures selectedLanguage.None? ==> caption == "Selected: "
      ensures selectedLanguage.Some? ==> |caption| >= 10 && caption[..10] == "Selected: " && caption[10..] == selectedLanguage.value
    {
      "Selected: " + (if selectedLanguage.Some? then selectedLanguage.value else "")
    }
  }
}
