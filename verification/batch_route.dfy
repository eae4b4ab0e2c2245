/** `POST /api/translate/batch` (app/api/translate/batch/route.ts). */
module BatchTranslateRoute {
  import opened Wrappers
  import opened JsText
  import opened Languages
  import opened TranslationService
  import opened Http

  /** The JSON body `{ texts, targetLanguage, sourceLanguage }`; `texts` is `None`
      when it is missing, `null` or not an array. */
  datatype BatchRequest = BatchRequest(texts: Option<seq<string>>, targetLanguage: Option<string>,
                                       sourceLanguage: Option<string>)

  /** The request is one the service is called for. */
  predicate Accepted(req: BatchRequest)
  {
    req.texts.Some? && Present(req.targetLanguage)
  }

  /** The provider's reply fits the batch this request would send. */
  predicate ReplyFitsBody(svc: Service, body: Body<BatchRequest>, reply: ProviderReply)
  {
    body.Parsed? && Accepted(body.request) ==>
      BatchReplyFits(svc, body.request.texts.value, body.request.targetLanguage.value,
                     Some(SourceOrEnglish(body.request.sourceLanguage)), reply)
  }

  /** Rejected with 400 exactly when `texts` is not an array or `targetLanguage`
      is falsy, with 500 exactly when the body is unreadable (not JSON, or `null`); otherwise
      answered 200 with `{ translatedTexts }`, the service's answer for the source
      language (`'en'` when falsy), one entry per input text. */
  function Post(svc: Service, body: Body<BatchRequest>, reply: ProviderReply): (o: RouteOutcome<seq<string>>)
    requires ReplyFitsBody(svc, body, reply)
    ensures o.response.Status() == 500 <==> body.Unreadable?
    ensures o.response.Status() == 400 <==> body.Parsed? && !Accepted(body.request)
    ensures o.response.BadRequest? ==> o.response.error == MissingParameters
    ensures o.response.ServerError? ==> o.response.error == TranslationFailed
    ensures !o.response.Ok? ==> o.service == svc && o.call.None?
    ensures o.response.Ok? ==> |o.response.payload| == |body.request.texts.value|
    ensures o.response.Ok? ==>
              var t := TranslateBatch(svc, body.request.texts.value, body.request.targetLanguage.value,
                                      Some(SourceOrEnglish(body.request.sourceLanguage)), reply);
              o.response.payload == t.translated && o.service == t.service && o.call == t.call
    ensures o.call.Some? && !Present(body.request.sourceLanguage) ==> o.call.value.source == English
  {
    match body
    case Unreadable => RouteOutcome(ServerError(TranslationFailed), svc, None)
    case Parsed(req) =>
      if req.texts.None? || !Present(req.targetLanguage) then
        RouteOutcome(BadRequest(MissingParameters), svc, None)
      else
        var t := TranslateBatch(svc, req.texts.value, req.targetLanguage.value,
                                Some(SourceOrEnglish(req.sourceLanguage)), reply);
        RouteOutcome(Ok(t.translated), t.service, t.call)
  }

  /** An empty array is accepted and answered with an empty array, without a
      provider call. */
  lemma EmptyBatchAccepted(svc: Service, target: string, source: Option<string>, reply: ProviderReply)
    requires Truthy(target)
    ensures var o := Post(svc, Parsed(BatchRequest(Some([]), Some(target), source)), reply);
            o.response == Ok([]) && o.service == svc && o.call.None?
  {
  }
}
