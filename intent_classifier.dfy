/**
 * The intent classifier of the bot (bot.py `get_intent_and_language`).
 *
 * Both passes walk the knowledge base entry by entry, and inside an entry first the
 * English keywords and then, only for Russian text, the Russian ones. That walk is
 * flattened here into a sequence of candidates, and each pass is a left fold `Run` of
 * one update `Step` over it. The methods keep the source's nested loops and are
 * proved equal to the folds; the lemmas state what the folds compute.
 */
module IntentClassifier {
  import opened Wrappers
  import opened LanguageDetection
  import opened KnowledgeBase

  /** A keyword together with the intent whose list it belongs to. */
  datatype Candidate = Candidate(intent: string, keyword: string)

  /**
   * The two passes. The fuzzy pass scores with the similarity ratio of
   * `difflib.SequenceMatcher`, which the model takes as a parameter.
   */
  datatype Pass = Substring | Fuzzy(ratio: (string, string) -> real)

  /** The pair `(best_intent, best_score)` that both passes update. */
  datatype Best = Best(intent: Option<string>, score: real)

  /** What `get_intent_and_language` returns. */
  datatype Verdict = Verdict(intent: Option<string>, language: Lang)

  /** The state before the first pass: `best_intent = None`, `best_score = 0`. */
  const NoMatch: Best := Best(None, 0.0)

  /** Python's `keyword in text` on strings; a keyword that occurs is no longer than the text. */
  predicate Occurs(keyword: string, text: string)
    ensures Occurs(keyword, text) ==> |keyword| <= |text|
  {
    keyword <= text || (text != [] && Occurs(keyword, text[1..]))
  }

  /** The keyword sits in the text starting at position `i`. */
  ghost predicate OccursAtPosition(keyword: string, text: string, i: int) {
    0 <= i <= |text| - |keyword| && text[i..i + |keyword|] == keyword
  }

  /** `Occurs` is the substring relation: the keyword sits at some position of the text. */
  lemma {:induction false} OccursAt(keyword: string, text: string)
    ensures Occurs(keyword, text) <==> exists i :: OccursAtPosition(keyword, text, i)
  {
    if keyword <= text {
      assert OccursAtPosition(keyword, text, 0);
    } else if text == [] {
    } else {
      var rest := text[1..];
      OccursAt(keyword, rest);
      if Occurs(keyword, rest) {
        var i :| OccursAtPosition(keyword, rest, i);
        PositionInTail(keyword, text, i);
      }
      if exists i :: OccursAtPosition(keyword, text, i) {
        var i :| OccursAtPosition(keyword, text, i);
        PositionInText(keyword, text, i);
      }
    }
  }

  /** A position in the text without its first character is one position further in the text. */
  lemma PositionInTail(keyword: string, text: string, i: int)
    requires text != [] && OccursAtPosition(keyword, text[1..], i)
    ensures OccursAtPosition(keyword, text, i + 1)
  {
    assert text[i + 1..i + 1 + |keyword|] == text[1..][i..i + |keyword|];
  }

  /** A position in the text is the start, or one position earlier in the text without its first character. */
  lemma PositionInText(keyword: string, text: string, i: int)
    requires OccursAtPosition(keyword, text, i)
    ensures i == 0 ==> keyword <= text
    ensures i > 0 ==> OccursAtPosition(keyword, text[1..], i - 1)
  {
    if i > 0 {
      assert text[1..][i - 1..i - 1 + |keyword|] == text[i..i + |keyword|];
    }
  }

  /** The substring score `len(keyword) * 2`. */
  function Score(c: Candidate): real {
    (2 * |c.keyword|) as real
  }

  /**
   * One iteration of the inner loop of a pass. It never lowers the score, and whatever
   * it changes ends with the candidate's intent.
   */
  function Step(pass: Pass, text: string, b: Best, c: Candidate): (r: Best)
    ensures r.score >= b.score
    ensures r == b || r.intent == Some(c.intent)
  {
    match pass
    case Substring =>
      if Occurs(c.keyword, text) && Score(c) > b.score then Best(Some(c.intent), Score(c)) else b
    case Fuzzy(ratio) =>
      var r := ratio(text, c.keyword);
      if r > 0.7 && r > b.score then Best(Some(c.intent), r) else b
  }

  /** A whole pass: `Step` over the candidates in order, starting from `init`. It never lowers the score. */
  function Run(pass: Pass, text: string, init: Best, cs: seq<Candidate>): (r: Best)
    ensures r.score >= init.score
    decreases |cs|
  {
    if cs == [] then init
    else Step(pass, text, Run(pass, text, init, cs[..|cs| - 1]), cs[|cs| - 1])
  }

  /** The keywords of one list, each tagged with its intent. */
  function Tagged(intent: string, keywords: seq<string>): seq<Candidate> {
    seq(|keywords|, i requires 0 <= i < |keywords| => Candidate(intent, keywords[i]))
  }

  /** What one entry contributes: its English keywords, then its Russian ones for Russian text. */
  function EntryCandidates(e: Entry, lang: Lang): (cs: seq<Candidate>)
    ensures |cs| == |e.keywordsEn| + (if lang == Ru then |e.keywordsRu| else 0)
    ensures forall i :: 0 <= i < |cs| ==> cs[i].intent == e.intent
  {
    Tagged(e.intent, e.keywordsEn) + (if lang == Ru then Tagged(e.intent, e.keywordsRu) else [])
  }

  /** All candidates of a knowledge base, in the order the loops visit them; the first entry's come first. */
  function Candidates(kb: seq<Entry>, lang: Lang): (cs: seq<Candidate>)
    ensures kb != [] ==> EntryCandidates(kb[0], lang) <= cs
    decreases |kb|
  {
    if kb == [] then []
    else Candidates(kb[..|kb| - 1], lang) + EntryCandidates(kb[|kb| - 1], lang)
  }

  /**
   * `get_intent_and_language` as a function of the text and the similarity ratio. The
   * language is the detected one, and a returned intent is always a key of the knowledge
   * base, so the caller's lookup succeeds.
   */
  function Classification(kb: seq<Entry>, userText: string, ratio: (string, string) -> real): (v: Verdict)
    ensures v.language == DetectLanguage(userText)
    ensures v.intent.Some? ==> Lookup(kb, v.intent.value).Some?
  {
    var text := Lower(userText);
    var lang := DetectLanguage(userText);
    var cs := Candidates(kb, lang);
    var afterSubstring := Run(Substring, text, NoMatch, cs);
    RunIntentOrigin(Substring, text, NoMatch, cs);
    RunIntentOrigin(Fuzzy(ratio), text, afterSubstring, cs);
    CandidateIntentsKnown(kb, lang);
    var best := if afterSubstring.score < 3.0 then Run(Fuzzy(ratio), text, afterSubstring, cs) else afterSubstring;
    Verdict(if best.score > 0.7 then best.intent else None, lang)
  }

  // ---------------------------------------------------------------------------
  // The loops

  /** The inner loop over one keyword list of one entry. */
  method ScanKeywords(pass: Pass, text: string, intent: string, keywords: seq<string>, start: Best)
    returns (best: Best)
    ensures best == Run(pass, text, start, Tagged(intent, keywords))
  {
    best := start;
    for j := 0 to |keywords|
      invariant best == Run(pass, text, start, Tagged(intent, keywords[..j]))
    {
      var keyword := keywords[j];
      match pass {
        case Substring =>
          if Occurs(keyword, text) {
            var score := (2 * |keyword|) as real;
            if score > best.score {
              best := Best(Some(intent), score);
            }
          }
        case Fuzzy(ratio) =>
          var score := ratio(text, keyword);
          if score > 0.7 && score > best.score {
            best := Best(Some(intent), score);
          }
      }
      assert Tagged(intent, keywords[..j + 1]) == Tagged(intent, keywords[..j]) + [Candidate(intent, keyword)];
    }
    assert keywords[..|keywords|] == keywords;
  }

  /** The outer loop of a pass over the knowledge base. */
  method ScanKnowledgeBase(pass: Pass, kb: seq<Entry>, lang: Lang, text: string, start: Best)
    returns (best: Best)
    ensures best == Run(pass, text, start, Candidates(kb, lang))
  {
    best := start;
    for i := 0 to |kb|
      invariant best == Run(pass, text, start, Candidates(kb[..i], lang))
    {
      var e := kb[i];
      RunNextEntry(pass, text, start, kb, i, lang);
      best := ScanKeywords(pass, text, e.intent, e.keywordsEn, best);
      if lang == Ru {
        best := ScanKeywords(pass, text, e.intent, e.keywordsRu, best);
      }
    }
    assert kb[..|kb|] == kb;
  }

  /** One more entry: the pass continues over its English keywords, then its Russian ones for Russian text. */
  lemma RunNextEntry(pass: Pass, text: string, start: Best, kb: seq<Entry>, i: nat, lang: Lang)
    requires i < |kb|
    ensures var before := Run(pass, text, start, Candidates(kb[..i], lang));
      var afterEn := Run(pass, text, before, Tagged(kb[i].intent, kb[i].keywordsEn));
      Run(pass, text, start, Candidates(kb[..i + 1], lang)) ==
        if lang == Ru then Run(pass, text, afterEn, Tagged(kb[i].intent, kb[i].keywordsRu)) else afterEn
  {
    var e := kb[i];
    var before := Run(pass, text, start, Candidates(kb[..i], lang));
    CandidatesNextEntry(kb, i, lang);
    RunAppend(pass, text, start, Candidates(kb[..i], lang), EntryCandidates(e, lang));
    EntryRun(pass, text, before, e, lang);
  }

  /** The candidates of one more entry are those of the entries before it, then its own. */
  lemma CandidatesNextEntry(kb: seq<Entry>, i: nat, lang: Lang)
    requires i < |kb|
    ensures Candidates(kb[..i + 1], lang) == Candidates(kb[..i], lang) + EntryCandidates(kb[i], lang)
  {
    assert kb[..i + 1][..i] == kb[..i];
  }

  /** A pass over one entry's candidates: its English keywords, then its Russian ones for Russian text. */
  lemma EntryRun(pass: Pass, text: string, init: Best, e: Entry, lang: Lang)
    ensures var afterEn := Run(pass, text, init, Tagged(e.intent, e.keywordsEn));
      Run(pass, text, init, EntryCandidates(e, lang)) ==
        if lang == Ru then Run(pass, text, afterEn, Tagged(e.intent, e.keywordsRu)) else afterEn
  {
    var en, ru := Tagged(e.intent, e.keywordsEn), Tagged(e.intent, e.keywordsRu);
    if lang == Ru {
      RunAppend(pass, text, init, en, ru);
    } else {
      assert EntryCandidates(e, lang) == en;
    }
  }

  /** `get_intent_and_language`: substring pass, fuzzy pass when the best score is below 3, threshold 0.7. */
  method GetIntentAndLanguage(kb: seq<Entry>, userText: string, ratio: (string, string) -> real)
    returns (v: Verdict)
    ensures v == Classification(kb, userText, ratio)
  {
    var text := Lower(userText);
    var lang := DetectLanguage(userText);
    var best := ScanKnowledgeBase(Substring, kb, lang, text, NoMatch);
    if best.score < 3.0 {
      best := ScanKnowledgeBase(Fuzzy(ratio), kb, lang, text, best);
    }
    v := Verdict(if best.score > 0.7 then best.intent else None, lang);
  }

  // ---------------------------------------------------------------------------
  // What the passes compute

  /** A pass over `a + b` is the pass over `b` started where the pass over `a` ended. */
  lemma {:induction false} RunAppend(pass: Pass, text: string, init: Best, a: seq<Candidate>, b: seq<Candidate>)
    ensures Run(pass, text, init, a + b) == Run(pass, text, Run(pass, text, init, a), b)
    decreases |b|
  {
    if b == [] {
      assert a + b == a;
    } else {
      RunAppend(pass, text, init, a, b[..|b| - 1]);
      assert (a + b)[..|a + b| - 1] == a + b[..|b| - 1];
    }
  }

  /** The candidates of the first `n` entries are a prefix of the candidates of the whole table. */
  lemma {:induction false} CandidatesPrefix(kb: seq<Entry>, n: nat, lang: Lang)
    requires n <= |kb|
    ensures Candidates(kb[..n], lang) <= Candidates(kb, lang)
    decreases |kb|
  {
    if n == |kb| {
      assert kb[..n] == kb;
    } else {
      var m := |kb| - 1;
      CandidatesPrefix(kb[..m], n, lang);
      assert kb[..m][..n] == kb[..n];
    }
  }

  /**
   * Candidate `j` is the one the substring pass must keep: it occurs, scores above zero,
   * no occurring candidate scores more, and every occurring candidate before it scores less.
   */
  ghost predicate IsFirstMaximum(cs: seq<Candidate>, text: string, j: int) {
    && 0 <= j < |cs|
    && Occurs(cs[j].keyword, text)
    && Score(cs[j]) > 0.0
    && (forall i :: 0 <= i < |cs| && Occurs(cs[i].keyword, text) ==> Score(cs[i]) <= Score(cs[j]))
    && (forall i :: 0 <= i < j && Occurs(cs[i].keyword, text) ==> Score(cs[i]) < Score(cs[j]))
  }

  /**
   * The substring pass computes the maximum of `2 * |keyword|` over the keywords that occur,
   * and keeps the intent of the first candidate reaching it (the comparison is strict).
   * With no occurring non-empty keyword it ends where it started.
   */
  lemma {:induction false} SubstringPassFindsFirstMaximum(text: string, cs: seq<Candidate>)
    ensures forall i :: 0 <= i < |cs| && Occurs(cs[i].keyword, text) ==>
              Score(cs[i]) <= Run(Substring, text, NoMatch, cs).score
    ensures Run(Substring, text, NoMatch, cs).intent.None? ==> Run(Substring, text, NoMatch, cs) == NoMatch
    ensures Run(Substring, text, NoMatch, cs).intent.Some? ==>
              exists j :: IsFirstMaximum(cs, text, j)
                       && Run(Substring, text, NoMatch, cs) == Best(Some(cs[j].intent), Score(cs[j]))
    decreases |cs|
  {
    SubstringPassBound(text, cs);
    if cs != [] {
      var n := |cs| - 1;
      var prefix := cs[..n];
      SubstringPassFindsFirstMaximum(text, prefix);
      var before := Run(Substring, text, NoMatch, prefix);
      var c := cs[n];
      assert forall i :: 0 <= i < n ==> cs[i] == prefix[i];
      if Occurs(c.keyword, text) && Score(c) > before.score {
        assert IsFirstMaximum(cs, text, n);
      } else if before.intent.Some? {
        var j :| IsFirstMaximum(prefix, text, j) && before == Best(Some(prefix[j].intent), Score(prefix[j]));
        assert IsFirstMaximum(cs, text, j);
      }
    }
  }

  /** No keyword that occurs scores above what the substring pass ends with. */
  lemma {:induction false} SubstringPassBound(text: string, cs: seq<Candidate>)
    ensures forall i :: 0 <= i < |cs| && Occurs(cs[i].keyword, text) ==>
              Score(cs[i]) <= Run(Substring, text, NoMatch, cs).score
    decreases |cs|
  {
    if cs != [] {
      var n := |cs| - 1;
      SubstringPassBound(text, cs[..n]);
      assert forall i :: 0 <= i < n ==> cs[i] == cs[..n][i];
    }
  }

  /**
   * The fuzzy pass never lowers the score; whatever it changes ends above 0.7 with an intent;
   * and when no ratio beats both 0.7 and the starting score, it changes nothing.
   */
  lemma {:induction false} FuzzyPassOnlyRaises(ratio: (string, string) -> real, text: string, init: Best, cs: seq<Candidate>)
    ensures Run(Fuzzy(ratio), text, init, cs).score >= init.score
    ensures Run(Fuzzy(ratio), text, init, cs) != init ==>
              Run(Fuzzy(ratio), text, init, cs).score > 0.7 && Run(Fuzzy(ratio), text, init, cs).intent.Some?
    ensures (forall i :: 0 <= i < |cs| ==> ratio(text, cs[i].keyword) <= 0.7 || ratio(text, cs[i].keyword) <= init.score) ==>
              Run(Fuzzy(ratio), text, init, cs) == init
    decreases |cs|
  {
    if cs != [] {
      var n := |cs| - 1;
      FuzzyPassOnlyRaises(ratio, text, init, cs[..n]);
      assert forall i :: 0 <= i < n ==> cs[i] == cs[..n][i];
    }
  }

  /** The intent a pass ends with is the one it started with or the intent of one of its candidates. */
  lemma {:induction false} RunIntentOrigin(pass: Pass, text: string, init: Best, cs: seq<Candidate>)
    ensures Run(pass, text, init, cs).intent == init.intent ||
            exists i :: 0 <= i < |cs| && Run(pass, text, init, cs).intent == Some(cs[i].intent)
    decreases |cs|
  {
    if cs != [] {
      var n := |cs| - 1;
      RunIntentOrigin(pass, text, init, cs[..n]);
      assert forall i :: 0 <= i < n ==> cs[i] == cs[..n][i];
    }
  }

  /** Every candidate carries the intent of some entry. */
  lemma {:induction false} CandidateIntentsKnown(kb: seq<Entry>, lang: Lang)
    ensures forall i :: 0 <= i < |Candidates(kb, lang)| ==>
              exists j :: 0 <= j < |kb| && kb[j].intent == Candidates(kb, lang)[i].intent
    decreases |kb|
  {
    if kb != [] {
      CandidateIntentsKnown(kb[..|kb| - 1], lang);
      assert forall j :: 0 <= j < |kb| - 1 ==> kb[..|kb| - 1][j] == kb[j];
    }
  }

  /** The keyword of `c` is in the English list of entry `e`, or in its Russian list for Russian text, and `c` carries `e`'s intent. */
  ghost predicate Listed(e: Entry, lang: Lang, c: Candidate) {
    e.intent == c.intent && (c.keyword in e.keywordsEn || (lang == Ru && c.keyword in e.keywordsRu))
  }

  /**
   * The candidates are exactly the English keywords of every entry and, for Russian
   * text only, the Russian keywords of every entry.
   */
  lemma {:induction false} CandidatesMembership(kb: seq<Entry>, lang: Lang, c: Candidate)
    ensures c in Candidates(kb, lang) <==> exists i :: 0 <= i < |kb| && Listed(kb[i], lang, c)
    decreases |kb|
  {
    if kb != [] {
      var n := |kb| - 1;
      var e := kb[n];
      assert Candidates(kb, lang) == Candidates(kb[..n], lang) + EntryCandidates(e, lang);
      CandidatesMembership(kb[..n], lang, c);
      EntryCandidatesMembership(e, lang, c);
      if c in Candidates(kb[..n], lang) {
        var i :| 0 <= i < n && Listed(kb[..n][i], lang, c);
        assert kb[..n][i] == kb[i];
        assert Listed(kb[i], lang, c);
      } else if c in EntryCandidates(e, lang) {
        assert Listed(kb[n], lang, c);
      } else {
        forall i | 0 <= i < |kb| ensures !Listed(kb[i], lang, c) {
          if i < n {
            assert kb[..n][i] == kb[i];
          }
        }
      }
    }
  }

  /** What one entry contributes: its English keywords and, for Russian text, its Russian ones. */
  lemma EntryCandidatesMembership(e: Entry, lang: Lang, c: Candidate)
    ensures c in EntryCandidates(e, lang) <==> Listed(e, lang, c)
  {
    if c in Tagged(e.intent, e.keywordsEn) {
      var k :| 0 <= k < |e.keywordsEn| && Tagged(e.intent, e.keywordsEn)[k] == c;
    }
    if lang == Ru && c in Tagged(e.intent, e.keywordsRu) {
      var k :| 0 <= k < |e.keywordsRu| && Tagged(e.intent, e.keywordsRu)[k] == c;
    }
    if e.intent == c.intent && c.keyword in e.keywordsEn {
      var k :| 0 <= k < |e.keywordsEn| && e.keywordsEn[k] == c.keyword;
      assert Tagged(e.intent, e.keywordsEn)[k] == c;
    }
    if lang == Ru && e.intent == c.intent && c.keyword in e.keywordsRu {
      var k :| 0 <= k < |e.keywordsRu| && e.keywordsRu[k] == c.keyword;
      assert Tagged(e.intent, e.keywordsRu)[k] == c;
    }
  }

  // ---------------------------------------------------------------------------
  // What the classifier returns

  /**
   * Any occurring non-empty keyword decides the answer: the classifier returns an intent,
   * namely the one the substring pass kept, and the fuzzy pass cannot override it
   * (a similarity ratio is at most 1, a substring score at least 2).
   */
  lemma SubstringHitDecides(kb: seq<Entry>, userText: string, ratio: (string, string) -> real, c: Candidate)
    requires forall a, b :: ratio(a, b) <= 1.0
    requires c in Candidates(kb, DetectLanguage(userText))
    requires |c.keyword| > 0 && Occurs(c.keyword, Lower(userText))
    ensures Classification(kb, userText, ratio).intent.Some?
    ensures Classification(kb, userText, ratio).intent ==
            Run(Substring, Lower(userText), NoMatch, Candidates(kb, DetectLanguage(userText))).intent
  {
    var text := Lower(userText);
    var cs := Candidates(kb, DetectLanguage(userText));
    SubstringPassFindsFirstMaximum(text, cs);
    FuzzyPassOnlyRaises(ratio, text, Run(Substring, text, NoMatch, cs), cs);
  }

  /** Text in which no keyword occurs and no ratio exceeds 0.7 gets no intent. */
  lemma NoHitNoIntent(kb: seq<Entry>, userText: string, ratio: (string, string) -> real)
    requires forall c :: c in Candidates(kb, DetectLanguage(userText)) ==>
               !Occurs(c.keyword, Lower(userText)) || c.keyword == []
    requires forall c :: c in Candidates(kb, DetectLanguage(userText)) ==> ratio(Lower(userText), c.keyword) <= 0.7
    ensures Classification(kb, userText, ratio).intent.None?
  {
    var text := Lower(userText);
    var cs := Candidates(kb, DetectLanguage(userText));
    SubstringPassFindsFirstMaximum(text, cs);
    var s := Run(Substring, text, NoMatch, cs);
    FuzzyPassOnlyRaises(ratio, text, s, cs);
  }
}
