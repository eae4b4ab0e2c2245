/** The translation fan-out of `LanguageProvider` (contexts/LanguageContext.tsx):
    one relay request per preferred language that needs translating. */
module LanguageContext {
  import opened Wrappers
  import opened JsText
  import opened Languages
  import opened ClientRelay
  import opened TranslateRoute
  import opened BatchTranslateRoute

  /** The user's primary and secondary language; `None` is `null`. */
  datatype Preferences = Preferences(primaryLanguage: Option<string>, secondaryLanguage: Option<string>)

  /** The `{ primary?, secondary? }` result object. */
  datatype Translations<T> = Translations(primary: Option<T>, secondary: Option<T>)

  /** The result, the `isTranslating` flag afterwards, and the relay requests sent
      for each language. */
  datatype FanOut<T, R> = FanOut(result: Translations<T>, isTranslating: bool,
                                 primarySent: Option<R>, secondarySent: Option<R>)

  /** A preferred language is translated into when it is set, truthy and not English. */
  predicate Wanted(lang: Option<string>)
  {
    lang.Some? && Truthy(lang.value) && lang.value != English
  }

  /** `translateText`: the empty text gives `{}` without touching `isTranslating`;
      otherwise each wanted language gets the relay's answer from English, the
      others stay absent, and `isTranslating` ends false. */
  function TranslateText(prefs: Preferences, isTranslating: bool, text: string,
                         primaryDelivery: Delivery<string>, secondaryDelivery: Delivery<string>)
    : (o: FanOut<string, TranslateRequest>)
    ensures !Truthy(text) ==> o == FanOut(Translations(None, None), isTranslating, None, None)
    ensures Truthy(text) ==> !o.isTranslating
    ensures o.result.primary.Some? <==> Truthy(text) && Wanted(prefs.primaryLanguage)
    ensures o.result.secondary.Some? <==> Truthy(text) && Wanted(prefs.secondaryLanguage)
    ensures o.result.primary.Some? ==>
              o.primarySent == Some(TranslateRequest(Some(text), prefs.primaryLanguage, Some(English)))
              && o.result.primary.value == Answer(primaryDelivery).GetOr(text)
    ensures o.result.secondary.Some? ==>
              o.secondarySent == Some(TranslateRequest(Some(text), prefs.secondaryLanguage, Some(English)))
              && o.result.secondary.value == Answer(secondaryDelivery).GetOr(text)
    ensures o.result.primary.None? ==> o.primarySent.None?
    ensures o.result.secondary.None? ==> o.secondarySent.None?
  {
    if !Truthy(text) then FanOut(Translations(None, None), isTranslating, None, None)
    else
      var p := if Wanted(prefs.primaryLanguage)
               then Some(TranslateOnClient(text, prefs.primaryLanguage.value, Some(English), primaryDelivery))
               else None;
      var s := if Wanted(prefs.secondaryLanguage)
               then Some(TranslateOnClient(text, prefs.secondaryLanguage.value, Some(English), secondaryDelivery))
               else None;
      FanOut(Translations(if p.Some? then Some(p.value.value) else None,
                          if s.Some? then Some(s.value.value) else None),
             false,
             if p.Some? then p.value.sent else None,
             if s.Some? then s.value.sent else None)
  }

  /** `translateBatch`: the same fan-out over a list; the empty list gives `{}`. */
  function TranslateBatch(prefs: Preferences, isTranslating: bool, texts: seq<string>,
                          primaryDelivery: Delivery<seq<string>>, secondaryDelivery: Delivery<seq<string>>)
    : (o: FanOut<seq<string>, BatchRequest>)
    ensures texts == [] ==> o == FanOut(Translations(None, None), isTranslating, None, None)
    ensures texts != [] ==> !o.isTranslating
    ensures o.result.primary.Some? <==> texts != [] && Wanted(prefs.primaryLanguage)
    ensures o.result.secondary.Some? <==> texts != [] && Wanted(prefs.secondaryLanguage)
    ensures o.result.primary.Some? ==>
              o.primarySent == Some(BatchRequest(Some(texts), prefs.primaryLanguage, Some(English)))
              && o.result.primary.value == Answer(primaryDelivery).GetOr(texts)
    ensures o.result.secondary.Some? ==>
              o.secondarySent == Some(BatchRequest(Some(texts), prefs.secondaryLanguage, Some(English)))
              && o.result.secondary.value == Answer(secondaryDelivery).GetOr(texts)
    ensures o.result.primary.None? ==> o.primarySent.None?
    ensures o.result.secondary.None? ==> o.secondarySent.None?
  {
    if texts == [] then FanOut(Translations(None, None), isTranslating, None, None)
    else
      var p := if Wanted(prefs.primaryLanguage)
               then Some(BatchTranslateOnClient(texts, prefs.primaryLanguage.value, Some(English), primaryDelivery))
               else None;
      var s := if Wanted(prefs.secondaryLanguage)
               then Some(BatchTranslateOnClient(texts, prefs.secondaryLanguage.value, Some(English), secondaryDelivery))
               else None;
      FanOut(Translations(if p.Some? then Some(p.value.value) else None,
                          if s.Some? then Some(s.value.value) else None),
             false,
             if p.Some? then p.value.sent else None,
             if s.Some? then s.value.sent else None)
  }
}
