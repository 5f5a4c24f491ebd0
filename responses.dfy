/**
 * Choice of the reply to a classified text (bot.py `handle_text_message`): a variant of the
 * intent's responses in the detected language, or of the fallback list when there is no
 * intent, picked by `hash(str(user_id)) % len(responses)`.
 */
module Responses {
  import opened Wrappers
  import opened LanguageDetection
  import opened KnowledgeBase
  import opened IntentClassifier

  /**
   * `hash(str(user_id)) % n`. Python's hash may be negative, but Python's `%` with a
   * positive divisor is never negative, and neither is Dafny's; the hash itself is a parameter.
   */
  function VariantIndex(userHash: int, n: nat): (i: nat)
    requires n > 0
    ensures i < n
    ensures 0 <= userHash < n ==> i == userHash
  {
    userHash % n
  }

  /**
   * The entry's responses in the reply language, falling back to the English ones when the
   * entry has none in that language. The list is one of the entry's own, never empty when
   * those are not.
   */
  function ResponsesFor(e: Entry, lang: Lang): (rs: seq<string>)
    ensures rs == e.responsesEn || e.responsesRu == Some(rs)
    ensures lang == En ==> rs == e.responsesEn
    ensures lang == Ru && e.responsesRu.Some? ==> rs == e.responsesRu.value
    ensures |e.responsesEn| > 0 && (e.responsesRu.Some? ==> |e.responsesRu.value| > 0) ==> |rs| > 0
  {
    if lang == Ru && e.responsesRu.Some? then e.responsesRu.value else e.responsesEn
  }

  /** The guard `intent and intent in KNOWLEDGE_BASE`: an intent that is present, non-empty and a key. */
  predicate KnownIntent(kb: seq<Entry>, intent: Option<string>)
    ensures KnownIntent(kb, intent) ==> exists i :: 0 <= i < |kb| && intent == Some(kb[i].intent)
  {
    intent.Some? && intent.value != "" && Lookup(kb, intent.value).Some?
  }

  /** The fallback list for a language: four responses in that language. */
  function FallbackFor(lang: Lang): (rs: seq<string>)
    ensures lang == En ==> rs == FallbackEn
    ensures lang == Ru ==> rs == FallbackRu
    ensures |rs| == 4
  {
    if lang == Ru then FallbackRu else FallbackEn
  }

  /**
   * The text sent back to the user. It is always an element of the intended list: the
   * intent's responses (Russian only for Russian text, and English when the entry has no
   * Russian list) or, without a known intent, the fallback list of the detected language.
   */
  function Reply(kb: seq<Entry>, v: Verdict, userHash: int): (r: string)
    requires WellFormed(kb)
    ensures KnownIntent(kb, v.intent) && v.language == En ==> r in Lookup(kb, v.intent.value).value.responsesEn
    ensures KnownIntent(kb, v.intent) && v.language == Ru ==>
              r in (var e := Lookup(kb, v.intent.value).value;
                    if e.responsesRu.Some? then e.responsesRu.value else e.responsesEn)
    ensures !KnownIntent(kb, v.intent) && v.language == En ==> r in FallbackEn
    ensures !KnownIntent(kb, v.intent) && v.language == Ru ==> r in FallbackRu
  {
    if KnownIntent(kb, v.intent) then
      var responses := ResponsesFor(Lookup(kb, v.intent.value).value, v.language);
      responses[VariantIndex(userHash, |responses|)]
    else
      var responses := FallbackFor(v.language);
      responses[VariantIndex(userHash, |responses|)]
  }

  /**
   * With intent names that are not empty, every intent the classifier returns passes the
   * reply guard, so the reply comes from that intent's responses and never from the fallback.
   */
  lemma ClassifiedIntentIsAnswered(kb: seq<Entry>, userText: string, ratio: (string, string) -> real)
    requires forall i :: 0 <= i < |kb| ==> kb[i].intent != ""
    ensures Classification(kb, userText, ratio).intent.Some? ==>
              KnownIntent(kb, Classification(kb, userText, ratio).intent)
  {
  }
}
