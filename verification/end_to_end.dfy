/** The layers composed: a browser-side call relayed through a route to the
    service answers as a direct call to the service would. */
module EndToEnd {
  import opened Wrappers
  import opened JsText
  import opened Languages
  import opened TranslationService
  import opened Http
  import opened TranslateRoute
  import opened BatchTranslateRoute
  import opened ClientRelay
  import LanguageContext

  /** For a non-empty target, `translateOnClient` whose request is answered by
      the single-text route returns what the service returns for the same text,
      with an empty source turned into English on the way; when it sends nothing,
      the service would not have called the provider either. */
  lemma ClientMatchesService(svc: Service, text: string, target: string, source: Option<string>,
                             reply: ProviderReply)
    requires Truthy(target)
    ensures var src := SourceOrDefault(source);
            var route := TranslateRoute.Post(svc, Parsed(TranslateRequest(Some(text), Some(target), Some(src))), reply);
            var client := TranslateOnClient(text, target, source, Delivered(route.response));
            var direct := TranslateText(svc, text, target, Some(SourceOrEnglish(Some(src))), reply);
            && client.value == direct.translated
            && (client.sent.Some? ==> route.service == direct.service && route.call == direct.call)
            && (client.sent.None? ==> direct.service == svc && direct.call.None?)
  {
  }

  /** The same for `batchTranslateOnClient` and the batch route. */
  lemma BatchClientMatchesService(svc: Service, texts: seq<string>, target: string, source: Option<string>,
                                  reply: ProviderReply)
    requires Truthy(target)
    requires BatchReplyFits(svc, texts, target, Some(SourceOrEnglish(Some(SourceOrDefault(source)))), reply)
    ensures var src := SourceOrDefault(source);
            var route := BatchTranslateRoute.Post(svc, Parsed(BatchRequest(Some(texts), Some(target), Some(src))), reply);
            var client := BatchTranslateOnClient(texts, target, source, Delivered(route.response));
            var direct := TranslateBatch(svc, texts, target, Some(SourceOrEnglish(Some(src))), reply);
            && client.value == direct.translated
            && (client.sent.Some? ==> route.service == direct.service && route.call == direct.call)
            && (client.sent.None? ==> direct.service == svc && direct.call.None?)
  {
  }

  /** The context's primary translation of a text, relayed through the route,
      is the service's translation of that text from English into the primary
      language (the secondary language is handled in the same way). */
  lemma ContextPrimaryMatchesService(prefs: LanguageContext.Preferences, busy: bool, text: string,
                                     svc: Service, reply: ProviderReply,
                                     secondaryDelivery: Delivery<string>)
    requires Truthy(text) && LanguageContext.Wanted(prefs.primaryLanguage)
    ensures var lang := prefs.primaryLanguage.value;
            var route := TranslateRoute.Post(svc, Parsed(TranslateRequest(Some(text), Some(lang), Some(English))), reply);
            var fan := LanguageContext.TranslateText(prefs, busy, text, Delivered(route.response), secondaryDelivery);
            fan.result.primary == Some(TranslateText(svc, text, lang, Some(English), reply).translated)
  {
  }

  /** The same for the context's list fan-out: the primary translation of a
      non-empty list, relayed through the batch route, is the service's batch
      translation of that list from English into the primary language. */
  lemma ContextBatchPrimaryMatchesService(prefs: LanguageContext.Preferences, busy: bool, texts: seq<string>,
                                          svc: Service, reply: ProviderReply,
                                          secondaryDelivery: Delivery<seq<string>>)
    requires texts != [] && LanguageContext.Wanted(prefs.primaryLanguage)
    requires BatchReplyFits(svc, texts, prefs.primaryLanguage.value, Some(English), reply)
    ensures var lang := prefs.primaryLanguage.value;
            var route := BatchTranslateRoute.Post(svc, Parsed(BatchRequest(Some(texts), Some(lang), Some(English))), reply);
            var fan := LanguageContext.TranslateBatch(prefs, busy, texts, Delivered(route.response), secondaryDelivery);
            fan.result.primary == Some(TranslateBatch(svc, texts, lang, Some(English), reply).translated)
  {
  }
}
