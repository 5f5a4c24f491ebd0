/**
 * The classifier run on the bot's own knowledge base, for a Russian price question.
 * "сколько стоит" has 13 characters, so its substring score is 26.
 */
module ClassifierExamples {
  import opened Wrappers
  import opened LanguageDetection
  import opened KnowledgeBase
  import opened IntentClassifier

  /** The question is already lower case, and 12 of its 13 characters are Cyrillic. */
  lemma PriceQuestionIsRussian()
    ensures Lower("сколько стоит") == "сколько стоит"
    ensures DetectLanguage("сколько стоит") == Ru
  {
    PriceQuestionIsLowerCase();
    PriceQuestionCyrillicCount();
  }

  lemma PriceQuestionCyrillicCount()
    ensures CyrillicCount("сколько стоит") == 12
  {
    assert "сколько стоит" == "сколько" + " " + "стоит";
    WordCounts();
    CyrillicCountAppend("сколько" + " ", "стоит");
    CyrillicCountAppend("сколько", " ");
  }

  /** The Cyrillic counts of the two words and of the space between them. */
  lemma WordCounts()
    ensures CyrillicCount("сколько") == 7
    ensures CyrillicCount(" ") == 0
    ensures CyrillicCount("стоит") == 5
  {
  }

  lemma PriceQuestionIsLowerCase()
    ensures Lower("сколько стоит") == "сколько стоит"
  {
    var text := "сколько стоит";
    forall i | 0 <= i < |text| ensures LowerChar(text[i]) == text[i] {
      assert 'а' <= text[i] <= 'я' || text[i] == ' ';
    }
  }

  /** Where a Russian candidate of one entry takes its keyword from. */
  lemma EntryCandidateKeywords(e: Entry, i: nat)
    requires i < |EntryCandidates(e, Ru)|
    ensures i < |e.keywordsEn| ==> EntryCandidates(e, Ru)[i] == Candidate(e.intent, e.keywordsEn[i])
    ensures i >= |e.keywordsEn| ==> EntryCandidates(e, Ru)[i] == Candidate(e.intent, e.keywordsRu[i - |e.keywordsEn|])
  {
  }

  /** The candidates of a table begin with those of its first two entries. */
  lemma FirstTwoEntries(kb: seq<Entry>, lang: Lang)
    requires |kb| >= 2
    ensures var front := EntryCandidates(kb[0], lang) + EntryCandidates(kb[1], lang);
      |front| <= |Candidates(kb, lang)| && Candidates(kb, lang)[..|front|] == front
  {
    var a, b := kb[0], kb[1];
    CandidatesPrefix(kb, 2, lang);
    assert kb[..2] == [a, b];
    assert [a, b][..1] == [a];
    SingleEntry(a, lang);
    assert Candidates([a, b], lang) == EntryCandidates(a, lang) + EntryCandidates(b, lang);
  }

  lemma SingleEntry(e: Entry, lang: Lang)
    ensures Candidates([e], lang) == EntryCandidates(e, lang)
  {
    assert [e][..0] == [];
  }

  /**
   * For Russian text, the first Russian keyword of the second entry comes right after the
   * first entry's keywords and the second entry's English ones.
   */
  lemma SecondEntryFirstRussian(kb: seq<Entry>, bound: nat)
    requires |kb| >= 2 && |kb[1].keywordsRu| > 0
    requires forall i :: 0 <= i < |kb[0].keywordsEn| ==> |kb[0].keywordsEn[i]| < bound
    requires forall i :: 0 <= i < |kb[0].keywordsRu| ==> |kb[0].keywordsRu[i]| < bound
    requires forall i :: 0 <= i < |kb[1].keywordsEn| ==> |kb[1].keywordsEn[i]| < bound
    ensures var j := |kb[0].keywordsEn| + |kb[0].keywordsRu| + |kb[1].keywordsEn|;
      j < |Candidates(kb, Ru)| &&
      Candidates(kb, Ru)[j] == Candidate(kb[1].intent, kb[1].keywordsRu[0]) &&
      forall i :: 0 <= i < j ==> |Candidates(kb, Ru)[i].keyword| < bound
  {
    var a, b := kb[0], kb[1];
    var h := EntryCandidates(a, Ru);
    var p := EntryCandidates(b, Ru);
    var cs := Candidates(kb, Ru);
    FirstTwoEntries(kb, Ru);
    var j := |a.keywordsEn| + |a.keywordsRu| + |b.keywordsEn|;
    forall i | 0 <= i < j ensures |cs[i].keyword| < bound {
      if i < |h| {
        EntryCandidateKeywords(a, i);
        assert cs[i] == h[i];
      } else {
        EntryCandidateKeywords(b, i - |h|);
        assert cs[i] == p[i - |h|];
      }
    }
    EntryCandidateKeywords(b, j - |h|);
    assert cs[j] == p[j - |h|];
  }

  /** The `hello` keywords and the English `price` keywords are all shorter than the Russian price question. */
  lemma HelloAndPriceKeywords()
    ensures forall i :: 0 <= i < |Hello.keywordsEn| ==> |Hello.keywordsEn[i]| < 13
    ensures forall i :: 0 <= i < |Hello.keywordsRu| ==> |Hello.keywordsRu[i]| < 13
    ensures forall i :: 0 <= i < |Price.keywordsEn| ==> |Price.keywordsEn[i]| < 13
    ensures Price.keywordsRu[0] == "сколько стоит"
    ensures |Hello.keywordsEn| + |Hello.keywordsRu| + |Price.keywordsEn| == 19
  {
  }

  /** In the bot's table, for Russian text, `price`'s "сколько стоит" is candidate 19 and every earlier keyword is shorter. */
  lemma RussianCandidatesFront()
    ensures |Candidates(Knowledge, Ru)| > 19
    ensures Candidates(Knowledge, Ru)[19] == Candidate("price", "сколько стоит")
    ensures forall i :: 0 <= i < 19 ==> |Candidates(Knowledge, Ru)[i].keyword| < 13
  {
    HelloAndPriceKeywords();
    SecondEntryFirstRussian(Knowledge, 13);
  }

  /**
   * "сколько стоит" is classified as `price` whatever the similarity ratio: the keyword
   * occurs, no keyword before it is as long, and no longer keyword fits in the text.
   */
  lemma RussianPriceQuestion(ratio: (string, string) -> real)
    ensures Classification(Knowledge, "сколько стоит", ratio) == Verdict(Some("price"), Ru)
  {
    var text := "сколько стоит";
    PriceQuestionIsRussian();
    RussianCandidatesFront();
    var cs := Candidates(Knowledge, Ru);
    var j := 19;
    SubstringPassFindsFirstMaximum(text, cs);
    assert Occurs(cs[j].keyword, text);
    var s := Run(Substring, text, NoMatch, cs);
    var k :| IsFirstMaximum(cs, text, k) && s == Best(Some(cs[k].intent), Score(cs[k]));
    assert k == j;
  }
}
