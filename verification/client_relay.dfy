/** `translateOnClient` and `batchTranslateOnClient` (lib/translation.ts): the
    browser-side helpers that forward to the two routes. */
module ClientRelay {
  import opened Wrappers
  import opened TranslationService
  import opened Http
  import opened TranslateRoute
  import opened BatchTranslateRoute

  /** What a relay request yields: a transport error, or the route's response. */
  datatype Delivery<T> = NetworkError | Delivered(response: Response<T>)

  /** The value handed back, and the request sent to the route, if any. */
  datatype RelayOutcome<T, R> = RelayOutcome(value: T, sent: Option<R>)

  /** The payload of a 2xx response; any other outcome makes the HTTP client throw. */
  function Answer<T>(delivery: Delivery<T>): Option<T>
  {
    if delivery.Delivered? && delivery.response.Ok? then Some(delivery.response.payload) else None
  }

  /** Equal languages: the text itself with no request. Otherwise one request
      carrying the text and both languages; the route's `translatedText` on
      success, the text itself on any failure. */
  function TranslateOnClient(text: string, target: string, source: Option<string>,
                             delivery: Delivery<string>): (o: RelayOutcome<string, TranslateRequest>)
    ensures SourceOrDefault(source) == target ==> o == RelayOutcome(text, None)
    ensures SourceOrDefault(source) != target ==>
              o.sent == Some(TranslateRequest(Some(text), Some(target), Some(SourceOrDefault(source))))
    ensures o.sent.Some? && Answer(delivery).Some? ==> o.value == Answer(delivery).value
    ensures Answer(delivery).None? ==> o.value == text
  {
    var src := SourceOrDefault(source);
    if src == target then RelayOutcome(text, None)
    else
      var sent := Some(TranslateRequest(Some(text), Some(target), Some(src)));
      match Answer(delivery)
      case Some(translated) => RelayOutcome(translated, sent)
      case None => RelayOutcome(text, sent)
  }

  /** The batch helper, with the same short-circuit and fallback: the input list
      on equal languages or any failure. */
  function BatchTranslateOnClient(texts: seq<string>, target: string, source: Option<string>,
                                  delivery: Delivery<seq<string>>): (o: RelayOutcome<seq<string>, BatchRequest>)
    ensures SourceOrDefault(source) == target ==> o == RelayOutcome(texts, None)
    ensures SourceOrDefault(source) != target ==>
              o.sent == Some(BatchRequest(Some(texts), Some(target), Some(SourceOrDefault(source))))
    ensures o.sent.Some? && Answer(delivery).Some? ==> o.value == Answer(delivery).value
    ensures Answer(delivery).None? ==> o.value == texts
  {
    var src := SourceOrDefault(source);
    if src == target then RelayOutcome(texts, None)
    else
      var sent := Some(BatchRequest(Some(texts), Some(target), Some(src)));
      match Answer(delivery)
      case Some(translated) => RelayOutcome(translated, sent)
      case None => RelayOutcome(texts, sent)
  }
}
