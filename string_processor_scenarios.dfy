/**
 * The situations the unit tests exercise, stated as lemmas about the model:
 * the batch-level rules (null and empty results are dropped, equal results
 * are merged) for arbitrary entries, and every concrete input of the tests.
 *
 * A concrete input is worked out in pieces that meet at run boundaries: each
 * piece is small enough to evaluate (or has no runs and nothing to remove),
 * `SubstitutedSplice2` to `SubstitutedSplice5` join the pieces, and a lemma
 * of plain text equalities turns the joined pieces back into the test's
 * literal.
 */
module StringProcessorScenarios {
  import opened Wrappers
  import opened StringProcessor

  /** An empty collection gives an empty set, not a missing one. */
  lemma EmptyCollectionGivesEmptySet()
    ensures ProcessStrings([]) == {}
  {
  }

  /** Runs collapse case-sensitively: "wwwWW" keeps one 'w' and one 'W'. */
  lemma RunsCollapseCaseSensitively()
    ensures Pipeline("wwwWW") == "wW"
  {
    assert RemoveRepeatingChars("wwwWW") == "wW";
    assert DropRemovedChars("wW") == "wW";
  }

  /** A run of dollars becomes a single pound sign. */
  lemma DollarRunBecomesOnePound()
    ensures Pipeline("$$$") == [Pound]
  {
    assert RemoveRepeatingChars("$$$") == "$";
    assert DropRemovedChars("$") == "$";
  }

  /** An entry made only of removed characters processes to the empty string. */
  lemma OnlyRemovedCharsGiveEmpty()
    ensures Pipeline("4444") == ""
    ensures Pipeline("4_4") == ""
  {
    assert RemoveRepeatingChars("4444") == "4";
    assert RemoveRepeatingChars("4_4") == "4_4";
    assert DropRemovedChars("4_4") == "";
  }

  /** The empty string processes to a present empty string; only the batch drops it. */
  lemma EmptyStringStaysPresent()
    ensures ProcessedValue(Some("")) == Some("")
    ensures ProcessStrings([Some("")]) == {}
  {
  }

  /** A null entry contributes nothing, wherever it stands. */
  lemma NullEntryIsDropped(before: seq<Option<string>>, after: seq<Option<string>>)
    ensures ProcessStrings(before + [None] + after) == ProcessStrings(before + after)
  {
    var all, kept := before + [None] + after, before + after;
    forall x | x in all && x != None ensures x in kept {
      assert x in before || x in after;
    }
    forall x | x in kept ensures x in all {
      assert x in before || x in after;
    }
  }

  /** An entry whose processed value is empty contributes nothing either. */
  lemma EmptyResultIsDropped(before: seq<Option<string>>, s: string, after: seq<Option<string>>)
    requires Pipeline(s) == []
    ensures ProcessStrings(before + [Some(s)] + after) == ProcessStrings(before + after)
  {
    var all, kept := before + [Some(s)] + after, before + after;
    forall x | x in all && x != Some(s) ensures x in kept {
      assert x in before || x in after;
    }
    forall x | x in kept ensures x in all {
      assert x in before || x in after;
    }
  }

  /** A batch may be processed in parts and the resulting sets merged. */
  lemma BatchSplitsAndMerges(first: seq<Option<string>>, second: seq<Option<string>>)
    ensures ProcessStrings(first + second) == ProcessStrings(first) + ProcessStrings(second)
  {
    forall x | x in first + second ensures x in first || x in second {
    }
  }

  // ---------------------------------------------------------------------------
  // Tools for concrete inputs
  // ---------------------------------------------------------------------------

  /** A piece with no two equal neighbours and no '4', '_' or '$' reaches the truncation unchanged. */
  lemma CleanPieceUnchanged(s: string)
    requires NoAdjacentDuplicates(s)
    requires forall i :: 0 <= i < |s| ==> !IsForbidden(s[i])
    ensures Substituted(s) == s
  {
    CollapseFixpoint(s);
    DropRemovedFixpoint(s);
  }

  /** The substitution, checked position by position. */
  lemma ReplaceDollarsPointwise(s: string, t: string)
    requires |t| == |s|
    requires forall i :: 0 <= i < |s| ==> t[i] == if s[i] == '$' then Pound else s[i]
    ensures ReplaceDollars(s) == t
  {
  }

  /** A piece with no two equal neighbours and no '4' or '_' only has its dollars replaced. */
  lemma DollarPieceReplaced(s: string, t: string)
    requires NoAdjacentDuplicates(s)
    requires forall i :: 0 <= i < |s| ==> !IsRemoved(s[i])
    requires |t| == |s|
    requires forall i :: 0 <= i < |s| ==> t[i] == if s[i] == '$' then Pound else s[i]
    ensures Substituted(s) == t
  {
    CollapseFixpoint(s);
    DropRemovedFixpoint(s);
    ReplaceDollarsPointwise(s, t);
  }

  /** Two pieces that meet at a run boundary are processed independently. */
  lemma SubstitutedSplice2(a: string, b: string, ra: string, rb: string)
    requires a != [] && b != [] && a[|a| - 1] != b[0]
    requires Substituted(a) == ra && Substituted(b) == rb
    ensures Substituted(a + b) == ra + rb
  {
    SubstitutedAppend(a, b);
  }

  /** Three pieces that meet at run boundaries are processed independently. */
  lemma SubstitutedSplice3(a: string, b: string, c: string, ra: string, rb: string, rc: string)
    requires a != [] && b != [] && c != []
    requires a[|a| - 1] != b[0] && b[|b| - 1] != c[0]
    requires Substituted(a) == ra && Substituted(b) == rb && Substituted(c) == rc
    ensures Substituted(a + b + c) == ra + rb + rc
  {
    SubstitutedSplice2(a, b, ra, rb);
    assert (a + b)[|a + b| - 1] == b[|b| - 1];
    SubstitutedAppend(a + b, c);
  }

  /** Four pieces that meet at run boundaries are processed independently. */
  lemma SubstitutedSplice4(a: string, b: string, c: string, d: string, ra: string, rb: string, rc: string, rd: string)
    requires a != [] && b != [] && c != [] && d != []
    requires a[|a| - 1] != b[0] && b[|b| - 1] != c[0] && c[|c| - 1] != d[0]
    requires Substituted(a) == ra && Substituted(b) == rb && Substituted(c) == rc && Substituted(d) == rd
    ensures Substituted(a + b + c + d) == ra + rb + rc + rd
  {
    SubstitutedSplice3(a, b, c, ra, rb, rc);
    assert (a + b + c)[|a + b + c| - 1] == c[|c| - 1];
    SubstitutedAppend(a + b + c, d);
  }

  /** Five pieces that meet at run boundaries are processed independently. */
  lemma SubstitutedSplice5(a: string, b: string, c: string, d: string, e: string,
                           ra: string, rb: string, rc: string, rd: string, re: string)
    requires a != [] && b != [] && c != [] && d != [] && e != []
    requires a[|a| - 1] != b[0] && b[|b| - 1] != c[0] && c[|c| - 1] != d[0] && d[|d| - 1] != e[0]
    requires Substituted(a) == ra && Substituted(b) == rb && Substituted(c) == rc
    requires Substituted(d) == rd && Substituted(e) == re
    ensures Substituted(a + b + c + d + e) == ra + rb + rc + rd + re
  {
    SubstitutedSplice4(a, b, c, d, ra, rb, rc, rd);
    assert (a + b + c + d)[|a + b + c + d| - 1] == d[|d| - 1];
    SubstitutedAppend(a + b + c + d, e);
  }

  /** When the stages before truncation leave more than 15 characters, the first 15 are kept. */
  lemma CutAtMaxLength(s: string, kept: string, cut: string)
    requires Substituted(s) == kept + cut
    requires |kept| == MaxInputLength
    ensures Pipeline(s) == kept
  {
    assert (kept + cut)[..MaxInputLength] == kept;
  }

  /** A batch of two entries with non-empty results gives exactly those two results. */
  lemma PairBatch(a: string, b: string, ra: string, rb: string)
    requires Pipeline(a) == ra && Pipeline(b) == rb && ra != [] && rb != []
    ensures ProcessStrings([Some(a), Some(b)]) == {ra, rb}
  {
    assert ProcessedValue(Some(a)) == Some(ra);
    assert ProcessedValue(Some(b)) == Some(rb);
  }

  /** Null entries after each of two entries with non-empty results are dropped. */
  lemma NullsBatch(a: string, b: string, ra: string, rb: string)
    requires Pipeline(a) == ra && Pipeline(b) == rb && ra != [] && rb != []
    ensures ProcessStrings([Some(a), None, Some(b), None]) == {ra, rb}
  {
    NullEntryIsDropped([Some(a)], [Some(b), None]);
    NullEntryIsDropped([Some(a), Some(b)], []);
    assert [Some(a)] + [None] + [Some(b), None] == [Some(a), None, Some(b), None];
    assert [Some(a)] + [Some(b), None] == [Some(a), Some(b)] + [None] + [];
    PairBatch(a, b, ra, rb);
  }

  /** Entries with empty results after each of two entries with non-empty results are dropped. */
  lemma EmptiesBatch(a: string, c: string, b: string, d: string, ra: string, rb: string)
    requires Pipeline(a) == ra && Pipeline(b) == rb && ra != [] && rb != []
    requires Pipeline(c) == [] && Pipeline(d) == []
    ensures ProcessStrings([Some(a), Some(c), Some(b), Some(d)]) == {ra, rb}
  {
    EmptyResultIsDropped([Some(a)], c, [Some(b), Some(d)]);
    EmptyResultIsDropped([Some(a), Some(b)], d, []);
    assert [Some(a)] + [Some(c)] + [Some(b), Some(d)] == [Some(a), Some(c), Some(b), Some(d)];
    assert [Some(a)] + [Some(b), Some(d)] == [Some(a), Some(b)] + [Some(d)] + [];
    PairBatch(a, b, ra, rb);
  }

  /** A batch of three entries with non-empty results gives exactly those three results. */
  lemma TripleBatch(a: string, b: string, c: string, ra: string, rb: string, rc: string)
    requires Pipeline(a) == ra && Pipeline(b) == rb && Pipeline(c) == rc
    requires ra != [] && rb != [] && rc != []
    ensures ProcessStrings([Some(a), Some(b), Some(c)]) == {ra, rb, rc}
  {
    assert ProcessedValue(Some(a)) == Some(ra);
    assert ProcessedValue(Some(b)) == Some(rb);
    assert ProcessedValue(Some(c)) == Some(rc);
  }

  // ---------------------------------------------------------------------------
  // Pieces shared by several inputs
  // ---------------------------------------------------------------------------

  lemma RemovedRuns()
    ensures Substituted("4") == "" && Substituted("44") == "" && Substituted("444") == ""
    ensures Substituted("_") == "" && Substituted("__") == "" && Substituted("___") == ""
  {
  }

  lemma PieceA() ensures Substituted("A ") == "A " { CleanPieceUnchanged("A "); }
  lemma PieceIn() ensures Substituted(" in ") == " in " { CleanPieceUnchanged(" in "); }
  lemma PieceStr() ensures Substituted(" str") == " str" { CleanPieceUnchanged(" str"); }
  lemma PieceADash() ensures Substituted("A-") == "A-" { CleanPieceUnchanged("A-"); }
  lemma PieceIsThe() ensures Substituted("-is-the-") == "-is-the-" { CleanPieceUnchanged("-is-the-"); }
  lemma PieceThis() ensures Substituted("This ") == "This " { CleanPieceUnchanged("This "); }

  // ---------------------------------------------------------------------------
  // Removal of '4' and '_'
  // ---------------------------------------------------------------------------

  lemma FoursInSentencePieces()
    ensures Substituted("A " + "4" + " in " + "4" + " str") == "A " + "" + " in " + "" + " str"
  {
    PieceA(); PieceIn(); PieceStr(); RemovedRuns();
    SubstitutedSplice5("A ", "4", " in ", "4", " str", "A ", "", " in ", "", " str");
  }

  lemma FoursInSentenceText()
    ensures "A " + "4" + " in " + "4" + " str" == "A 4 in 4 str"
    ensures "A " + "" + " in " + "" + " str" == "A  in  str"
  {
  }

  /** "A 4 in 4 str" gives "A  in  str". */
  lemma FoursInSentence()
    ensures Pipeline("A 4 in 4 str") == "A  in  str"
  {
    FoursInSentencePieces();
    FoursInSentenceText();
  }

  lemma FourRunsInSentencePieces()
    ensures Substituted("A-" + "444" + "-is-the-" + "44") == "A-" + "" + "-is-the-" + ""
  {
    PieceADash(); PieceIsThe(); RemovedRuns();
    SubstitutedSplice4("A-", "444", "-is-the-", "44", "A-", "", "-is-the-", "");
  }

  lemma FourRunsInSentenceText()
    ensures "A-" + "444" + "-is-the-" + "44" == "A-444-is-the-44"
    ensures "A-" + "" + "-is-the-" + "" == "A--is-the-"
  {
  }

  /** "A-444-is-the-44" gives "A--is-the-". */
  lemma FourRunsInSentence()
    ensures Pipeline("A-444-is-the-44") == "A--is-the-"
  {
    FourRunsInSentencePieces();
    FourRunsInSentenceText();
  }

  /** The batch of the test for '4' gives both expected results and nothing else. */
  lemma FoursRemoved()
    ensures ProcessStrings([Some("A 4 in 4 str"), Some("A-444-is-the-44")]) == {"A  in  str", "A--is-the-"}
  {
    FoursInSentence();
    FourRunsInSentence();
    PairBatch("A 4 in 4 str", "A-444-is-the-44", "A  in  str", "A--is-the-");
  }

  lemma UnderscoresInSentencePieces()
    ensures Substituted("A " + "_" + " in " + "_" + " str") == "A " + "" + " in " + "" + " str"
  {
    PieceA(); PieceIn(); PieceStr(); RemovedRuns();
    SubstitutedSplice5("A ", "_", " in ", "_", " str", "A ", "", " in ", "", " str");
  }

  lemma UnderscoresInSentenceText()
    ensures "A " + "_" + " in " + "_" + " str" == "A _ in _ str"
    ensures "A " + "" + " in " + "" + " str" == "A  in  str"
  {
  }

  /** "A _ in _ str" gives "A  in  str". */
  lemma UnderscoresInSentence()
    ensures Pipeline("A _ in _ str") == "A  in  str"
  {
    UnderscoresInSentencePieces();
    UnderscoresInSentenceText();
  }

  lemma UnderscoreRunsInSentencePieces()
    ensures Substituted("A-" + "___" + "-is-the-" + "__") == "A-" + "" + "-is-the-" + ""
  {
    PieceADash(); PieceIsThe(); RemovedRuns();
    SubstitutedSplice4("A-", "___", "-is-the-", "__", "A-", "", "-is-the-", "");
  }

  lemma UnderscoreRunsInSentenceText()
    ensures "A-" + "___" + "-is-the-" + "__" == "A-___-is-the-__"
    ensures "A-" + "" + "-is-the-" + "" == "A--is-the-"
  {
  }

  /** "A-___-is-the-__" gives "A--is-the-". */
  lemma UnderscoreRunsInSentence()
    ensures Pipeline("A-___-is-the-__") == "A--is-the-"
  {
    UnderscoreRunsInSentencePieces();
    UnderscoreRunsInSentenceText();
  }

  /** The batch of the test for '_' gives both expected results and nothing else. */
  lemma UnderscoresRemoved()
    ensures ProcessStrings([Some("A _ in _ str"), Some("A-___-is-the-__")]) == {"A  in  str", "A--is-the-"}
  {
    UnderscoresInSentence();
    UnderscoreRunsInSentence();
    PairBatch("A _ in _ str", "A-___-is-the-__", "A  in  str", "A--is-the-");
  }

  // ---------------------------------------------------------------------------
  // Dollars
  // ---------------------------------------------------------------------------

  /** "A $ is $" gives "A £ is £". */
  lemma DollarsInSentence()
    ensures Pipeline("A $ is $") == "A £ is £"
  {
    DollarPieceReplaced("A $ is $", "A £ is £");
  }

  lemma PieceIsTheDollar() ensures Substituted(" is the $") == " is the £" { DollarPieceReplaced(" is the $", " is the £"); }
  lemma DollarRun() ensures Substituted("$$$") == [Pound] { }

  lemma DollarRunInSentencePieces()
    ensures Substituted("This " + "$$$" + " is the $") == "This " + [Pound] + " is the £"
  {
    PieceThis(); PieceIsTheDollar(); DollarRun();
    SubstitutedSplice3("This ", "$$$", " is the $", "This ", [Pound], " is the £");
  }

  lemma DollarRunInSentenceText()
    ensures "This " + "$$$" + " is the $" == "This $$$ is the $"
    ensures "This " + [Pound] + " is the £" == "This £ is the £"
  {
  }

  /** "This $$$ is the $" gives "This £ is the £". */
  lemma DollarRunInSentence()
    ensures Pipeline("This $$$ is the $") == "This £ is the £"
  {
    DollarRunInSentencePieces();
    DollarRunInSentenceText();
  }

  /** The batch of the test for '$' gives both expected results and nothing else. */
  lemma DollarsReplaced()
    ensures ProcessStrings([Some("A $ is $"), Some("This $$$ is the $")]) == {"A £ is £", "This £ is the £"}
  {
    DollarsInSentence();
    DollarRunInSentence();
    PairBatch("A $ is $", "This $$$ is the $", "A £ is £", "This £ is the £");
  }

  // ---------------------------------------------------------------------------
  // Truncation: the first 14, 15 and 16 characters of the tests' sample sentences
  // ---------------------------------------------------------------------------

  /** 14 characters are kept whole. */
  lemma ShortInputKept()
    ensures Pipeline("A 1238 (*%! A ") == "A 1238 (*%! A "
  {
    CleanPieceUnchanged("A 1238 (*%! A ");
  }

  /** Exactly 15 characters are kept whole. */
  lemma MaxLengthInputKept()
    ensures Pipeline("B 56789 )-=+ B ") == "B 56789 )-=+ B "
  {
    CleanPieceUnchanged("B 56789 )-=+ B ");
  }

  lemma LongInputText()
    ensures "C 93 )-=+ th1s " + "i" == "C 93 )-=+ th1s i"
  {
  }

  lemma LongInputSubstituted()
    ensures Substituted("C 93 )-=+ th1s " + "i") == "C 93 )-=+ th1s " + "i"
  {
    LongInputText();
    CleanPieceUnchanged("C 93 )-=+ th1s i");
  }

  /** 16 characters lose the last one. */
  lemma LongInputCut()
    ensures Pipeline("C 93 )-=+ th1s i") == "C 93 )-=+ th1s "
  {
    LongInputSubstituted();
    LongInputText();
    CutAtMaxLength("C 93 )-=+ th1s i", "C 93 )-=+ th1s ", "i");
  }

  /** The batch of the truncation test gives the three expected results and nothing else. */
  lemma LongInputsTruncated()
    ensures ProcessStrings([Some("A 1238 (*%! A "), Some("B 56789 )-=+ B "), Some("C 93 )-=+ th1s i")])
         == {"A 1238 (*%! A ", "B 56789 )-=+ B ", "C 93 )-=+ th1s "}
  {
    ShortInputKept();
    MaxLengthInputKept();
    LongInputCut();
    TripleBatch("A 1238 (*%! A ", "B 56789 )-=+ B ", "C 93 )-=+ th1s i",
                "A 1238 (*%! A ", "B 56789 )-=+ B ", "C 93 )-=+ th1s ");
  }

  // ---------------------------------------------------------------------------
  // Runs
  // ---------------------------------------------------------------------------

  lemma RunPiecesA1() ensures Substituted("A") == "A" && Substituted("WWW") == "W" { }
  lemma RunPiecesA2() ensures Substituted("www") == "w" && Substituted("pp") == "p" { }
  lemma RunPiecesA3() ensures Substituted("PPPP") == "P" { }
  lemma RunPiecesA4() ensures Substituted(" ") == " " && Substituted("AA") == "A" { }

  lemma RunsInSentenceALeft()
    ensures Substituted("A" + "WWW" + "www" + "This ") == "A" + "W" + "w" + "This "
  {
    RunPiecesA1(); RunPiecesA2(); PieceThis();
    SubstitutedSplice4("A", "WWW", "www", "This ", "A", "W", "w", "This ");
  }

  lemma RunsInSentenceARight()
    ensures Substituted("pp" + "PPPP" + " " + "AA") == "p" + "P" + " " + "A"
  {
    RunPiecesA2(); RunPiecesA3(); RunPiecesA4();
    SubstitutedSplice4("pp", "PPPP", " ", "AA", "p", "P", " ", "A");
  }

  lemma RunsInSentenceAText()
    ensures "A" + "WWW" + "www" + "This " == "AWWWwwwThis "
    ensures "A" + "W" + "w" + "This " == "AWwThis "
    ensures "pp" + "PPPP" + " " + "AA" == "ppPPPP AA"
    ensures "p" + "P" + " " + "A" == "pP A"
    ensures "AWWWwwwThis " + "ppPPPP AA" == "AWWWwwwThis ppPPPP AA"
    ensures "AWwThis " + "pP A" == "AWwThis pP A"
  {
  }

  lemma RunsInSentenceAJoined()
    ensures Substituted("AWWWwwwThis " + "ppPPPP AA") == "AWwThis " + "pP A"
  {
    RunsInSentenceALeft();
    RunsInSentenceARight();
    RunsInSentenceAText();
    SubstitutedSplice2("AWWWwwwThis ", "ppPPPP AA", "AWwThis ", "pP A");
  }

  /** "AWWWwwwThis ppPPPP AA" gives "AWwThis pP A". */
  lemma RunsInSentenceA()
    ensures Pipeline("AWWWwwwThis ppPPPP AA") == "AWwThis pP A"
  {
    RunsInSentenceAJoined();
    RunsInSentenceAText();
  }

  lemma PieceBz() ensures Substituted("Bz") == "Bz" { CleanPieceUnchanged("Bz"); }
  lemma PieceE() ensures Substituted("e ") == "e " { CleanPieceUnchanged("e "); }
  lemma RunPiecesB1() ensures Substituted("ZZZ") == "Z" && Substituted("bb") == "b" { }
  lemma RunPiecesB2() ensures Substituted("CCCC") == "C" { }
  lemma RunPiecesB3() ensures Substituted(" ") == " " && Substituted("--") == "-" { }
  lemma RunPiecesB4() ensures Substituted("+") == "+" && Substituted("**") == "*" { }

  lemma RunsInSentenceBLeft()
    ensures Substituted("Bz" + "ZZZ" + "e " + "bb") == "Bz" + "Z" + "e " + "b"
  {
    RunPiecesB1(); PieceBz(); PieceE();
    SubstitutedSplice4("Bz", "ZZZ", "e ", "bb", "Bz", "Z", "e ", "b");
  }

  lemma RunsInSentenceBRight()
    ensures Substituted("CCCC" + " " + "--" + "+" + "**") == "C" + " " + "-" + "+" + "*"
  {
    RunPiecesB2(); RunPiecesB3(); RunPiecesB4();
    SubstitutedSplice5("CCCC", " ", "--", "+", "**", "C", " ", "-", "+", "*");
  }

  lemma RunsInSentenceBText()
    ensures "Bz" + "ZZZ" + "e " + "bb" == "BzZZZe bb"
    ensures "Bz" + "Z" + "e " + "b" == "BzZe b"
    ensures "CCCC" + " " + "--" + "+" + "**" == "CCCC --+**"
    ensures "C" + " " + "-" + "+" + "*" == "C -+*"
    ensures "BzZZZe bb" + "CCCC --+**" == "BzZZZe bbCCCC --+**"
    ensures "BzZe b" + "C -+*" == "BzZe bC -+*"
  {
  }

  lemma RunsInSentenceBJoined()
    ensures Substituted("BzZZZe bb" + "CCCC --+**") == "BzZe b" + "C -+*"
  {
    RunsInSentenceBLeft();
    RunsInSentenceBRight();
    RunsInSentenceBText();
    SubstitutedSplice2("BzZZZe bb", "CCCC --+**", "BzZe b", "C -+*");
  }

  /** "BzZZZe bbCCCC --+**" gives "BzZe bC -+*". */
  lemma RunsInSentenceB()
    ensures Pipeline("BzZZZe bbCCCC --+**") == "BzZe bC -+*"
  {
    RunsInSentenceBJoined();
    RunsInSentenceBText();
  }

  /** "String C" has no runs and is kept whole. */
  lemma NoRunsKept()
    ensures Pipeline("String C") == "String C"
  {
    CleanPieceUnchanged("String C");
  }

  /** The batch of the runs test gives the three expected results and nothing else. */
  lemma RunsCollapsed()
    ensures ProcessStrings([Some("AWWWwwwThis ppPPPP AA"), Some("BzZZZe bbCCCC --+**"), Some("String C")])
         == {"AWwThis pP A", "BzZe bC -+*", "String C"}
  {
    RunsInSentenceA();
    RunsInSentenceB();
    NoRunsKept();
    TripleBatch("AWWWwwwThis ppPPPP AA", "BzZZZe bbCCCC --+**", "String C",
                "AWwThis pP A", "BzZe bC -+*", "String C");
  }

  // ---------------------------------------------------------------------------
  // Null and empty entries
  // ---------------------------------------------------------------------------

  lemma FirstNameKept() ensures Pipeline("String1") == "String1" { CleanPieceUnchanged("String1"); }
  lemma SecondNameKept() ensures Pipeline("String2") == "String2" { CleanPieceUnchanged("String2"); }
  lemma FourRunGone() ensures Pipeline("4444") == "" { assert RemoveRepeatingChars("4444") == "4"; }

  /** The batch of the null-entry test gives the two names and nothing else. */
  lemma NullEntriesOmitted()
    ensures ProcessStrings([Some("String1"), None, Some("String2"), None]) == {"String1", "String2"}
  {
    FirstNameKept();
    SecondNameKept();
    NullsBatch("String1", "String2", "String1", "String2");
  }

  /** The batch of the empty-result test gives the two names and nothing else. */
  lemma EmptyResultsOmitted()
    ensures ProcessStrings([Some("String1"), Some(""), Some("String2"), Some("4444")]) == {"String1", "String2"}
  {
    FirstNameKept();
    SecondNameKept();
    FourRunGone();
    EmptiesBatch("String1", "", "String2", "4444", "String1", "String2");
  }
}
