/** `POST /api/translate` (app/api/translate/route.ts). */
module TranslateRoute {
  import opened Wrappers
  import opened JsText
  import opened Languages
  import opened TranslationService
  import opened Http

  /** The JSON body `{ text, targetLanguage, sourceLanguage }`; `None` is a
      missing or `null` field. */
  datatype TranslateRequest = TranslateRequest(text: Option<string>, targetLanguage: Option<string>,
                                               sourceLanguage: Option<string>)

  /** The request is rejected with 400 exactly when `text` or `targetLanguage` is
      falsy, and with 500 exactly when its body is unreadable (not JSON, or `null`); the service never
      throws, so every other request is answered 200 with `{ translatedText }` set
      to the service's answer for the source language, `'en'` when falsy. */
  function Post(svc: Service, body: Body<TranslateRequest>, reply: ProviderReply): (o: RouteOutcome<string>)
    ensures o.response.Status() == 500 <==> body.Unreadable?
    ensures o.response.Status() == 400 <==>
              body.Parsed? && (!Present(body.request.text) || !Present(body.request.targetLanguage))
    ensures o.response.BadRequest? ==> o.response.error == MissingParameters
    ensures o.response.ServerError? ==> o.response.error == TranslationFailed
    ensures !o.response.Ok? ==> o.service == svc && o.call.None?
    ensures o.response.Ok? ==>
              var t := TranslateText(svc, body.request.text.value, body.request.targetLanguage.value,
                                     Some(SourceOrEnglish(body.request.sourceLanguage)), reply);
              o.response.payload == t.translated && o.service == t.service && o.call == t.call
    ensures o.call.Some? && !Present(body.request.sourceLanguage) ==> o.call.value.source == English
  {
    match body
    case Unreadable => RouteOutcome(ServerError(TranslationFailed), svc, None)
    case Parsed(req) =>
      if !Present(req.text) || !Present(req.targetLanguage) then
        RouteOutcome(BadRequest(MissingParameters), svc, None)
      else
        var t := TranslateText(svc, req.text.value, req.targetLanguage.value,
                               Some(SourceOrEnglish(req.sourceLanguage)), reply);
        RouteOutcome(Ok(t.translated), t.service, t.call)
  }

  /** The empty text never reaches the service, so the only blank texts it sees
      from this route are non-empty whitespace: those are answered with
      themselves, without a provider call and without touching the cache. */
  lemma BlankTextEchoed(svc: Service, text: string, target: string, source: Option<string>,
                        reply: ProviderReply)
    requires IsBlank(text) && Truthy(target)
    ensures var o := Post(svc, Parsed(TranslateRequest(Some(text), Some(target), source)), reply);
            && (text == "" ==> o.response == BadRequest(MissingParameters))
            && (text != "" ==> o.response == Ok(text))
            && o.service == svc && o.call.None?
  {
  }

  /** A target outside the language registry is not rejected: any non-empty
      string is handed to the service. */
  lemma UnregisteredTargetAccepted(svc: Service, text: string, target: string, reply: ProviderReply)
    requires Truthy(text) && Truthy(target) && !IsLanguageCode(target)
    ensures Post(svc, Parsed(TranslateRequest(Some(text), Some(target), None)), reply).response.Ok?
  {
  }
}
