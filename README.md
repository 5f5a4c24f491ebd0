# NOVA sales bot: classifier and pending-record store, in Dafny

This project models the decision logic and the persistence contract of the NOVA Telegram
sales bot (`backend_hidden/bot.py`). It has four parts:

- **Language detection and intent classification.**
  - `detect_language` counts the Cyrillic letters of the lower-cased text.
  - `get_intent_and_language` runs a substring pass over the knowledge base. When the best
    score is below 3, a fuzzy pass follows. An intent is returned only above 0.7.
- **The pending-record store.** It models `pending_messages.json` and `pending_orders.json`
  and the five operations on them:
  - `save_pending_message`, `save_pending_order`;
  - `mark_message_processed`, `mark_order_processed`;
  - `restore_pending_data`.
- **The `/status` counts** of pending records.
- **Small rules around them:**
  - the delivery time of a mini-app order;
  - the choice of a response variant by `hash(str(user_id)) % len(responses)`, with the fallback lists.

Modules, one per file:

- `Wrappers` (`wrappers.dfy`): `Option`.
- `LanguageDetection` (`language_detection.dfy`):
  - lower-casing of ASCII and Russian letters;
  - the Cyrillic count;
  - `DetectLanguage`.
- `KnowledgeBase` (`knowledge_base.dfy`):
  - the table of twelve intents, in dictionary order, with their exact keyword lists;
  - `Lookup`;
  - the fallback lists.
- `IntentClassifier` (`intent_classifier.dfy`):
  - Each pass is a left fold `Run` of one update `Step` over the flattened candidate list `Candidates`.
  - `Classification` is the whole function.
  - The methods `ScanKeywords`, `ScanKnowledgeBase` and `GetIntentAndLanguage` keep the
    source's nested loops, and are proved equal to the folds.
- `ClassifierExamples` (`classifier_examples.dfy`): the classifier on the bot's own table,
  for the Russian question "сколько стоит".
- `Delivery` (`delivery.dfy`): cart items and the delivery-time rule.
- `Responses` (`responses.dfy`): the variant index, and the reply chosen for a verdict.
- `PendingStore` (`pending_store.dfy`):
  - specification functions on the record lists;
  - the class `Store`, which holds both files. For each file it keeps whether the file exists,
    its records, and how many times it has been rewritten. Its methods update these fields in
    place, with loops like the source's;
  - lemmas relating the pending records before and after each operation.

Behaviour worth knowing, as the code has it:

- **Restore can fail mid-way.** `restore_pending_data` flags records only in the loaded
  list, and rewrites the file after the whole loop. A notification that raises therefore
  ends the `try` before that file's rewrite. Every record of that file stays as it was,
  including those whose notifications already went out. A failure in the message half
  also skips the order half. A failure in the order half comes after the messages file
  has been rewritten, so the restored messages stay restored.
- **Missing `processed` key.** An order record without a `processed` key counts as
  processed for `mark_order_processed`. It makes `restore_pending_data` and `/status`
  raise `KeyError`, and both are modelled that way.
- **The Russian price question.** "сколько стоит" is 13 characters long, and 12 of them
  are Cyrillic. The keyword "сколько стоит" therefore scores 26.

## Model

| member | source | states |
|---|---|---|
| LanguageDetection.LowerChar | backend_hidden/bot.py:359 | no capital survives lowering: A..Z and А..Я become the small letters 32 code points above them, Ё becomes ё and the Kelvin sign becomes k; every character that is not one of these capitals is unchanged |
| LanguageDetection.Lower | backend_hidden/bot.py:359 | the lowered text has the same length and no capital left; each character is lowered in place, and every character that is not a capital is kept |
| LanguageDetection.IsCyrillic | backend_hidden/bot.py:359 | the test `а <= c <= я or c == ё`; a character that passes it is never a capital, so lowering leaves every such character unchanged |
| LanguageDetection.CyrillicCount | backend_hidden/bot.py:359 | the number of Cyrillic letters never exceeds the text length |
| LanguageDetection.DetectLanguage | backend_hidden/bot.py:357-360 | the text is Russian exactly when the Cyrillic count of the lowered text exceeds a third of the length under true division, as `ru_chars > len(text) / 3` computes it |
| LanguageDetection.LowerCharIdempotent | backend_hidden/bot.py:359 | lowering a character twice is the same as lowering it once |
| LanguageDetection.LowerIdempotent | backend_hidden/bot.py:359 | lowering a text twice is the same as lowering it once |
| LanguageDetection.CyrillicCountAppend | backend_hidden/bot.py:359 | the count of a concatenation is the sum of the counts |
| LanguageDetection.CyrillicCountZero | backend_hidden/bot.py:359 | the count is zero if and only if no character is in а..я or ё |
| LanguageDetection.CyrillicCountFull | backend_hidden/bot.py:359 | the count equals the length if and only if every character is in а..я or ё |
| LanguageDetection.NoCyrillicIsEnglish | backend_hidden/bot.py:357-360 | text with no Cyrillic letter after lowering is detected as English |
| LanguageDetection.ThirtyFourPercentIsRussian | backend_hidden/bot.py:357-360 | non-empty text in which at least 34% of the lowered characters are Cyrillic is detected as Russian |
| LanguageDetection.AllCyrillicIsRussian | backend_hidden/bot.py:357-360 | non-empty text made only of Cyrillic letters is Russian |
| LanguageDetection.DetectLanguageIgnoresCase | backend_hidden/bot.py:357-360 | detection gives the same answer for a text and its lower-cased form |
| KnowledgeBase.Lookup | backend_hidden/bot.py:195-340 | the lookup finds an entry exactly when some entry has that intent name, and the entry it returns carries that name |
| KnowledgeBase.KnowledgeIsWellFormed | backend_hidden/bot.py:195-355 | the bot's table `Knowledge` has distinct intent names and non-empty response lists; the fallback lists `FallbackEn` and `FallbackRu` hold four responses each |
| KnowledgeBase.KnowledgeIntents | backend_hidden/bot.py:195-340 | the table has twelve entries, whose keys are those of the dictionary literal in its order |
| KnowledgeBase.KnowledgeResponseCounts | backend_hidden/bot.py:195-340 | every intent has two English and two Russian responses |
| KnowledgeBase.KnowledgeIntentsDistinct | backend_hidden/bot.py:195-340 | no two entries share an intent name |
| IntentClassifier.Occurs | backend_hidden/bot.py:373 | `keyword in text`; a keyword that occurs is no longer than the text |
| IntentClassifier.OccursAt | backend_hidden/bot.py:373 | `keyword in text` holds exactly when the keyword sits at some position of the text |
| IntentClassifier.Step | backend_hidden/bot.py:373-377 | one iteration of either pass never lowers the best score, and whatever it changes takes the candidate's intent |
| IntentClassifier.Run | backend_hidden/bot.py:369-402 | a whole pass never lowers the best score it started from |
| IntentClassifier.EntryCandidates | backend_hidden/bot.py:372-385 | one entry contributes one candidate per English keyword and, for Russian text only, one per Russian keyword, all tagged with its intent |
| IntentClassifier.Candidates | backend_hidden/bot.py:370-385 | the first entry's candidates come first |
| IntentClassifier.CandidateIntentsKnown | backend_hidden/bot.py:370-385 | every candidate carries the intent of some entry |
| IntentClassifier.Classification | backend_hidden/bot.py:362-404 | the verdict carries the detected language, and any intent it returns is a key of the knowledge base |
| IntentClassifier.ScanKeywords | backend_hidden/bot.py:371-376 | the inner loop over one keyword list ends in the state the fold `Run` gives for that list, in both passes |
| IntentClassifier.ScanKnowledgeBase | backend_hidden/bot.py:369-385 | the outer loop visits every entry's English keywords, then its Russian ones for Russian text, and ends in the fold's state |
| IntentClassifier.RunNextEntry | backend_hidden/bot.py:369-385 | one more entry continues the pass over its English keywords, then over its Russian ones only for Russian text |
| IntentClassifier.GetIntentAndLanguage | backend_hidden/bot.py:362-404 | the method returns `Classification`: substring pass, fuzzy pass only below 3, intent only above 0.7, and the detected language |
| IntentClassifier.RunAppend | backend_hidden/bot.py:369-385 | a pass over two candidate lists in a row is the pass over the second, started where the first ended |
| IntentClassifier.CandidatesPrefix | backend_hidden/bot.py:369-385 | the candidates of the first n entries come first, in order |
| IntentClassifier.SubstringPassFindsFirstMaximum | backend_hidden/bot.py:370-386 | the substring pass ends with the maximum of 2·len over the keywords that occur. Its intent is that of the first candidate reaching the maximum, since every earlier occurring keyword scores strictly less. With no intent the state is unchanged |
| IntentClassifier.FuzzyPassOnlyRaises | backend_hidden/bot.py:389-402 | the fuzzy pass never lowers the score. Any change it makes ends above 0.7 with an intent. When no ratio beats both 0.7 and the starting score, it changes nothing |
| IntentClassifier.RunIntentOrigin | backend_hidden/bot.py:366-402 | a pass ends with its starting intent or with the intent of one of its candidates |
| IntentClassifier.CandidatesMembership | backend_hidden/bot.py:369-385 | a keyword is a candidate if and only if it is in some entry's English list, or in its Russian list and the text is Russian |
| IntentClassifier.EntryCandidatesMembership | backend_hidden/bot.py:370-385 | the same, for the candidates of one entry |
| IntentClassifier.SubstringHitDecides | backend_hidden/bot.py:388-404 | when some non-empty eligible keyword occurs, the classifier returns an intent, namely the one the substring pass kept (ratios at most 1) |
| IntentClassifier.NoHitNoIntent | backend_hidden/bot.py:388-404 | when no eligible keyword occurs and no ratio exceeds 0.7, no intent is returned |
| ClassifierExamples.PriceQuestionIsRussian | backend_hidden/bot.py:357-360 | "сколько стоит" is already lower case and is detected as Russian |
| ClassifierExamples.PriceQuestionCyrillicCount | backend_hidden/bot.py:359 | "сколько стоит" has 12 Cyrillic letters |
| ClassifierExamples.PriceQuestionIsLowerCase | backend_hidden/bot.py:359 | lowering "сколько стоит" leaves it unchanged |
| ClassifierExamples.EntryCandidateKeywords | backend_hidden/bot.py:370-385 | for Russian text, an entry's candidates are its English keywords followed by its Russian ones |
| ClassifierExamples.SingleEntry | backend_hidden/bot.py:369-385 | the candidates of a one-entry table are that entry's candidates |
| ClassifierExamples.FirstTwoEntries | backend_hidden/bot.py:369-385 | the candidates of a table begin with those of its first two entries |
| ClassifierExamples.SecondEntryFirstRussian | backend_hidden/bot.py:369-385 | for Russian text, the second entry's first Russian keyword follows all earlier keywords, and every earlier keyword is shorter than a given bound |
| ClassifierExamples.HelloAndPriceKeywords | backend_hidden/bot.py:196-210 | every `hello` keyword and every English `price` keyword is shorter than 13 characters; the first Russian `price` keyword is "сколько стоит" |
| ClassifierExamples.RussianCandidatesFront | backend_hidden/bot.py:195-210 | in the bot's table, for Russian text, "сколько стоит" is candidate 19 and every earlier keyword is shorter |
| ClassifierExamples.RussianPriceQuestion | backend_hidden/bot.py:362-404 | "сколько стоит" is classified as intent `price` in Russian, whatever the similarity ratio |
| Delivery.HasPro | backend_hidden/bot.py:662 | `has_pro` holds exactly when some cart item has tier `pro` |
| Delivery.DeliveryTime | backend_hidden/bot.py:662-663 | the delivery time is one of the two texts, and it is the multi-day text if and only if some item has tier `pro` |
| Delivery.DeliveryExamples | backend_hidden/bot.py:662-663 | a single core item gives one business day; adding a pro item gives the multi-day text |
| Responses.VariantIndex | backend_hidden/bot.py:731 | `hash % len` lies in `[0, len)` for any hash, negative ones included, and is the hash itself when that is already in range |
| Responses.ResponsesFor | backend_hidden/bot.py:730 | the list is the entry's English list for English text, otherwise its Russian list when it has one and its English list when not; it is non-empty whenever the entry's lists are |
| Responses.KnownIntent | backend_hidden/bot.py:728 | an intent that passes the guard is the key of some entry |
| Responses.FallbackFor | backend_hidden/bot.py:748-751 | Russian text gets the Russian fallback list and English text the English one, four responses either way |
| Responses.Reply | backend_hidden/bot.py:726-751 | the reply is one of the intent's responses in the detected language (English when the intent has no Russian list, and only for English text otherwise), or, without a known intent, one of the fallback responses of the detected language |
| Responses.ClassifiedIntentIsAnswered | backend_hidden/bot.py:726-728 | with non-empty intent names, every intent the classifier returns passes the reply guard |
| PendingStore.MarkedMessages | backend_hidden/bot.py:88-91 | marking keeps the length and every other field. It sets `processed` on every record of that user with that text, and leaves every other flag as it was |
| PendingStore.MarkedOrders | backend_hidden/bot.py:108-113 | marking keeps the length and every other field. It sets `processed` on every unprocessed record with the same total and cart. Records without the key and all others are unchanged |
| PendingStore.PendingMessages | backend_hidden/bot.py:130 | the pending messages are unprocessed records and no more than the file holds |
| PendingStore.PendingOrders | backend_hidden/bot.py:154 | the pending orders are records whose `processed` value is false, and no more than the file holds |
| PendingStore.PendingMessageCount | backend_hidden/bot.py:812 | the `/status` message count is the number of pending messages |
| PendingStore.PendingOrderCount | backend_hidden/bot.py:819 | the `/status` order count exists exactly when every order has a `processed` key, and is then the number of pending orders |
| PendingStore.RestoredMessages | backend_hidden/bot.py:130-143 | after a completed restore every message record is processed and nothing else changed |
| PendingStore.RestoredOrders | backend_hidden/bot.py:154-167 | after a completed restore every order record with a `processed` key is processed and nothing else changed |
| PendingStore.Store.constructor | backend_hidden/bot.py:38-43 | the store starts with the files as found; a missing file holds no records |
| PendingStore.Store.SavePendingMessage | backend_hidden/bot.py:36-57 | the file now exists. The records are the old ones plus one unprocessed record at the end. The file is written once |
| PendingStore.Store.SavePendingOrder | backend_hidden/bot.py:59-78 | the file now exists. The records are the old ones plus the order, unprocessed, at the end. The file is written once |
| PendingStore.Store.MarkMessageProcessed | backend_hidden/bot.py:80-98 | the records become `MarkedMessages` of the old ones. The file is rewritten once if it exists; a missing file is left alone |
| PendingStore.Store.MarkOrderProcessed | backend_hidden/bot.py:100-120 | the records become `MarkedOrders` of the old ones. The file is rewritten once if it exists; a missing file is left alone |
| PendingStore.Store.RestoreMessages | backend_hidden/bot.py:125-147 | With no file, nothing pending or no operator, nothing is sent or written. Otherwise the notifications are the pending records in file order, all records become processed, and the file is written once. A send failure at pending record k leaves the first k sent and the file untouched |
| PendingStore.Store.RestoreOrders | backend_hidden/bot.py:150-171 | the same for orders. In addition, a record without a `processed` key raises before anything is sent and leaves the file untouched |
| PendingStore.Store.RestorePendingData | backend_hidden/bot.py:122-176 | without an operator nothing is sent and neither file changes. A send failure in the message half sends a prefix of the pending messages, leaves both files untouched and skips the order half. With an operator, no send failing (no failure index, or one past the pending list) and a `processed` key on every order record, every pending record is notified in file order, both record lists become their restored forms with each file rewritten once when it had pending records, and nothing is left pending |
| PendingStore.Store.Status | backend_hidden/bot.py:806-819 | `/status` reports counts exactly when every order record has a `processed` key, and the counts are the numbers of pending messages and orders |
| PendingStore.PendingMessagesAppend | backend_hidden/bot.py:131 | the pending messages of a concatenation are those of each part, in order |
| PendingStore.PendingOrdersAppend | backend_hidden/bot.py:155 | the pending orders of a concatenation are those of each part, in order |
| PendingStore.PendingMessagesStep | backend_hidden/bot.py:131-143 | one more record joins the pending prefix exactly when it is unprocessed |
| PendingStore.PendingOrdersStep | backend_hidden/bot.py:155-167 | one more order record joins the pending prefix exactly when it is unprocessed |
| PendingStore.PendingPrefix | backend_hidden/bot.py:131-143 | the messages sent before a failing pending record are a proper prefix of the pending list |
| PendingStore.PendingOrderPrefix | backend_hidden/bot.py:155-167 | the orders sent before a failing pending record are a proper prefix of the pending list |
| PendingStore.SavedMessageIsPendingLast | backend_hidden/bot.py:44-50 | after an append, the pending messages are the earlier pending ones followed by the new one, and the count grows by one |
| PendingStore.SavedOrderIsPendingLast | backend_hidden/bot.py:67-71 | after an append, the pending orders are the earlier pending ones followed by the new one |
| PendingStore.MarkMessagesIdempotent | backend_hidden/bot.py:88-91 | marking the same user and text twice is the same as marking once |
| PendingStore.MarkOrdersIdempotent | backend_hidden/bot.py:108-113 | marking the same order twice is the same as marking once |
| PendingStore.PendingAfterMarkMessages | backend_hidden/bot.py:88-91 | after marking, the pending messages are the earlier pending ones, in order, without those of that user with that text |
| PendingStore.OtherPendingMessagesAppend | backend_hidden/bot.py:88-91 | removing one user's text from a concatenation removes it from each part |
| PendingStore.OtherPendingOrdersAppend | backend_hidden/bot.py:108-113 | removing one order from a concatenation removes it from each part |
| PendingStore.PendingAfterMarkOrders | backend_hidden/bot.py:108-113 | after marking, the pending orders are the earlier pending ones, in order, without those with that total and cart; records without the key are untouched |
| PendingStore.RestoreLeavesNothingPending | backend_hidden/bot.py:125-171 | after a completed restore no message and no order is pending |

## Left out

- The aiogram bot, its handlers, keyboards and `message.answer`/`send_message` calls are not
  modelled. A restore notification is the record it reports, collected in an output sequence.
  Whether a send fails is a parameter: the index of the pending record whose send raises.
- File I/O, `json.load`/`json.dump` and `os.path.exists` are replaced by the store's fields: an
  existence flag, the record list, and a count of rewrites. Failures of reading, writing or
  parsing are not modelled, and neither is logging. The only exceptions modelled are a failed
  send and the `KeyError` on an order record without `processed`.
- Timestamps (`datetime.now().isoformat()`) are parameters.
- `difflib.SequenceMatcher(...).ratio()` is a function parameter of the fuzzy pass. Its
  floats are Dafny reals. Only `SubstringHitDecides` assumes the ratio is at most 1.
- Python's salted `hash(str(user_id))` is an integer parameter.
- The response and fallback texts are marketing copy. They appear as labels such as
  `price/ru/1`, one per text, so the list lengths stay those of the source.
- `LanguageDetection.Lower`: does not model Python's full Unicode `str.lower()`. It lowers
  A..Z, А..Я, Ё and the Kelvin sign U+212A (which Python lowers to `k`). Other capitals stay
  as they are: Greek, Latin with diacritics, and others. U+0130 (İ) is not modelled at all,
  because Python lowers it to two characters and would change the text's length. These
  cannot change the Cyrillic count. They can change the text that keywords are matched in
  and that the fuzzy ratio receives.
- `Delivery.CartItem` keeps only the name, price and tier of a cart item. `mark_order_processed`
  (`backend_hidden/bot.py:111`) compares whole cart dictionaries, extra keys included, so two
  carts that differ only in other keys are equal in the model but not in the source.
- Cart prices and order totals are integers, not JSON numbers.
- The notification texts, the invoice text and the other handlers are not modelled:
  - the admin-reply regex of `handle_admin_reply`;
  - `/start`, products and the web-app handler beyond its delivery-time rule.

  They format text or pass messages along. `backend_hidden/config.py` is not part of this
  model: it only reads the environment.
- `PendingStore.Store.RestorePendingData`: a failure in the order half, or an order record
  without `processed`, is stated by `RestoreOrders`, which it calls, and not again in its own
  contract.
