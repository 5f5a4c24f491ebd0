/**
 * The bot's static knowledge base (bot.py `KNOWLEDGE_BASE`, `FALLBACK_RESPONSES_EN`,
 * `FALLBACK_RESPONSES_RU`). The Python dictionary keeps insertion order, so it is
 * modelled as a sequence of entries in that order.
 */
module KnowledgeBase {
  import opened Wrappers

  /**
   * One intent. A keyword list missing from the dictionary (`data.get('keywords_en', [])`)
   * is the empty list; `responsesRu` is `None` when the entry has no `responses_ru` key.
   */
  datatype Entry = Entry(
    intent: string,
    keywordsEn: seq<string>,
    keywordsRu: seq<string>,
    responsesEn: seq<string>,
    responsesRu: Option<seq<string>>)

  /**
   * What the reply code relies on: intent names are keys of a dictionary (distinct),
   * and every response list it may index modulo its length is non-empty.
   */
  predicate WellFormed(kb: seq<Entry>) {
    && (forall i, j :: 0 <= i < j < |kb| ==> kb[i].intent != kb[j].intent)
    && (forall i :: 0 <= i < |kb| ==> |kb[i].responsesEn| > 0)
    && (forall i :: 0 <= i < |kb| && kb[i].responsesRu.Some? ==> |kb[i].responsesRu.value| > 0)
  }

  /** `KNOWLEDGE_BASE[intent]`: the entry for an intent name, if there is one. */
  function Lookup(kb: seq<Entry>, intent: string): (r: Option<Entry>)
    ensures r.Some? ==> r.value in kb && r.value.intent == intent
    ensures r.None? ==> forall i :: 0 <= i < |kb| ==> kb[i].intent != intent
  {
    if kb == [] then None
    else if kb[0].intent == intent then Some(kb[0])
    else Lookup(kb[1..], intent)
  }

  // One constant per intent, in the dictionary's order. The response texts are
  // represented by labels "<intent>/<language>/<position>".

  const Hello: Entry := Entry("hello",
    ["hello", "hi", "hey", "start", "good morning", "wazzap", "sup"],
    ["привет", "здравствуйте", "хай", "добрый день", "начать"],
    ["hello/en/1", "hello/en/2"],
    Some(["hello/ru/1", "hello/ru/2"]))

  const Price: Entry := Entry("price",
    ["price", "cost", "how much", "money", "expensive", "cheap", "pricing"],
    ["сколько стоит", "цена", "стоимость", "прайс", "стоит"],
    ["price/en/1", "price/en/2"],
    Some(["price/ru/1", "price/ru/2"]))

  const DeliveryIntent: Entry := Entry("delivery",
    ["delivery", "when get", "timeline", "receive", "ship", "deliver"],
    ["доставка", "когда получу", "срок", "получить", "отправка"],
    ["delivery/en/1", "delivery/en/2"],
    Some(["delivery/ru/1", "delivery/ru/2"]))

  const Payment: Entry := Entry("payment",
    ["payment", "pay", "crypto", "bitcoin", "usdt", "ton", "ethereum", "wallet"],
    ["оплата", "крипта", "биткоин", "usdt", "ton", "кошелек", "платеж"],
    ["payment/en/1", "payment/en/2"],
    Some(["payment/ru/1", "payment/ru/2"]))

  const Features: Entry := Entry("features",
    ["features", "what can", "can do", "capabilities", "functions"],
    ["возможности", "функции", "что может", "умеет"],
    ["features/en/1", "features/en/2"],
    Some(["features/ru/1", "features/ru/2"]))

  const Custom: Entry := Entry("custom",
    ["custom", "customization", "customize", "pro", "enterprise", "special", "modify"],
    ["кастом", "настроить", "индивидуальный", "особый", "изменить"],
    ["custom/en/1", "custom/en/2"],
    Some(["custom/ru/1", "custom/ru/2"]))

  const Tech: Entry := Entry("tech",
    ["technical", "requirements", "server", "vps", "hosting", "setup", "install"],
    ["технические", "требования", "сервер", "хостинг", "установка"],
    ["tech/en/1", "tech/en/2"],
    Some(["tech/ru/1", "tech/ru/2"]))

  const Support: Entry := Entry("support",
    ["support", "help", "update", "updates", "problem", "issue", "bug"],
    ["поддержка", "помощь", "обновление", "проблема", "ошибка"],
    ["support/en/1", "support/en/2"],
    Some(["support/ru/1", "support/ru/2"]))

  const Guarantee: Entry := Entry("guarantee",
    ["warranty", "guarantee", "refund", "working", "does it work", "reliable"],
    ["гарантия", "возврат", "работает", "надежно"],
    ["guarantee/en/1", "guarantee/en/2"],
    Some(["guarantee/ru/1", "guarantee/ru/2"]))

  const AiAgents: Entry := Entry("ai_agents",
    ["ai agent", "ai agents", "chat bot", "support bot", "sales bot"],
    ["ai агент", "чат бот", "бот поддержки", "продающий бот"],
    ["ai_agents/en/1", "ai_agents/en/2"],
    Some(["ai_agents/ru/1", "ai_agents/ru/2"]))

  const Scrapers: Entry := Entry("scrapers",
    ["scraper", "parsing", "data extraction", "monitoring", "data mining"],
    ["скрапер", "парсинг", "сбор данных", "мониторинг"],
    ["scrapers/en/1", "scrapers/en/2"],
    Some(["scrapers/ru/1", "scrapers/ru/2"]))

  const Community: Entry := Entry("community",
    ["community", "telegram group", "channel", "monetization", "subscription"],
    ["сообщество", "группа", "канал", "монетизация", "подписка"],
    ["community/en/1", "community/en/2"],
    Some(["community/ru/1", "community/ru/2"]))

  const Knowledge: seq<Entry> := [
    Hello, Price, DeliveryIntent, Payment, Features, Custom, Tech, Support, Guarantee, AiAgents, Scrapers, Community]

  const FallbackEn: seq<string> := ["fallback/en/1", "fallback/en/2", "fallback/en/3", "fallback/en/4"]
  const FallbackRu: seq<string> := ["fallback/ru/1", "fallback/ru/2", "fallback/ru/3", "fallback/ru/4"]

  /** The bot's own table satisfies what the reply code relies on. */
  lemma KnowledgeIsWellFormed()
    ensures WellFormed(Knowledge)
    ensures |FallbackEn| == 4 && |FallbackRu| == 4
  {
    KnowledgeResponseCounts();
    KnowledgeIntentsDistinct();
  }

  /** Every entry has two English and two Russian responses. */
  lemma KnowledgeResponseCounts()
    ensures forall i :: 0 <= i < |Knowledge| ==> |Knowledge[i].responsesEn| == 2
    ensures forall i :: 0 <= i < |Knowledge| ==> Knowledge[i].responsesRu.Some? && |Knowledge[i].responsesRu.value| == 2
  {
  }

  /** The table's keys, in the order the dictionary literal lists them. */
  lemma KnowledgeIntents()
    ensures |Knowledge| == 12
    ensures seq(|Knowledge|, i requires 0 <= i < |Knowledge| => Knowledge[i].intent) ==
            ["hello", "price", "delivery", "payment", "features", "custom",
             "tech", "support", "guarantee", "ai_agents", "scrapers", "community"]
  {
  }

  /** No two entries share an intent name. */
  lemma KnowledgeIntentsDistinct()
    ensures forall i, j :: 0 <= i < j < |Knowledge| ==> Knowledge[i].intent != Knowledge[j].intent
  {
  }
}
