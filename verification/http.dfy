/** What the two translation routes share: JSON request fields, response shapes
    and the outcome of handling one request against the service. */
module Http {
  import opened Wrappers
  import opened JsText
  import opened Languages
  import opened TranslationService

  /** A JSON response: the payload with status 200, or an error object. */
  datatype Response<T> = Ok(payload: T) | BadRequest(error: string) | ServerError(error: string) {

    function Status(): nat
    {
      match this
      case Ok(_) => 200
      case BadRequest(_) => 400
      case ServerError(_) => 500
    }
  }

  /** A request body. `Unreadable`: `request.json()` throws, or it yields `null`,
      whose destructuring throws; either way the handler's `catch` answers.
      `Parsed`: the fields destructured from any other JSON value. */
  datatype Body<R> = Unreadable | Parsed(request: R)

  /** The response of one request, the service state after it, and the provider call it caused. */
  datatype RouteOutcome<T> = RouteOutcome(response: Response<T>, service: Service, call: Option<ProviderCall>)

  const MissingParameters: string := "Missing required parameters"
  const TranslationFailed: string := "Translation failed"

  /** JavaScript truthiness of an optional string field: a missing field, `null`
      and `""` are falsy. */
  predicate Present(field: Option<string>)
  {
    field.Some? && Truthy(field.value)
  }

  /** `sourceLanguage || 'en'`. */
  function SourceOrEnglish(field: Option<string>): (s: string)
    ensures Truthy(s)
    ensures Present(field) ==> s == field.value
  {
    if Present(field) then field.value else English
  }
}
