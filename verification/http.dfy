/** A `fetch` response as the components inspect it, the errors they raise,
    and the error-body handling several components share. */
module Http {
  import opened Wrappers
  import opened Json
  import Text

  /** A response: status line, `content-type` header (`""` when absent), the
      raw body text (what `response.text()` yields) and the parsed body (what
      `response.json()` yields; `None` when it would throw). */
  datatype Response = Response(
    status: int,
    statusText: string,
    contentType: string,
    text: string,
    parsed: Option<Json>)
  {
    /** `response.ok`. */
    predicate Ok() {
      200 <= status <= 299
    }

    /** `contentType.includes('application/json')`. */
    predicate IsJson() {
      Text.Contains(contentType, "application/json")
    }

    /** A rejected login: 401 or 403. */
    predicate IsAuthFailure() {
      status == 401 || status == 403
    }
  }

  /** The error a component catches: `new Error(text)`, the SyntaxError
      `response.json()` / `JSON.parse` throws on malformed text, or the
      TypeError of reading a property of `null` (or of testing `'key' in`
      on a primitive). The engine's wording of the last two is not modelled. */
  datatype Error =
    | Message(text: string)
    | SyntaxError
    | NullProperty(key: string)
    | InOnPrimitive(key: string)

  const ErrorSliceLength: nat := 200

  /** `new Error(v.message || fallback)` for a non-null `v`. */
  function MessageOr(v: Json, fallback: string): (e: Error)
    requires !v.JNull?
    ensures e.Message?
    ensures TruthyMember(v, "message") ==> e.text == ToJsString(Member(v, "message").value)
    ensures !TruthyMember(v, "message") ==> e.text == fallback
  {
    if TruthyMember(v, "message") then Message(ToJsString(Member(v, "message").value))
    else Message(fallback)
  }

  /** `new Error((data && data.message) || fallback)`. */
  function DataMessageOr(data: Json, fallback: string): (e: Error)
    ensures e.Message?
    ensures Truthy(data) && TruthyMember(data, "message") ==> e.text == ToJsString(Member(data, "message").value)
    ensures !(Truthy(data) && TruthyMember(data, "message")) ==> e.text == fallback
  {
    if Truthy(data) && TruthyMember(data, "message") then Message(ToJsString(Member(data, "message").value))
    else Message(fallback)
  }

  /** The error several components raise for a non-OK response:
      a JSON body (or `{}` when it does not parse) contributes its `message`,
      or `fallback`; a JSON string body or a text body contributes its first
      200 characters; a JSON `null` body makes `errBody.message` throw. */
  function ErrorBodyMessage(r: Response, fallback: string): (e: Error)
    ensures !r.IsJson() ==> e == Message(Text.Take(r.text, ErrorSliceLength))
    ensures r.IsJson() && r.parsed.None? ==> e == Message(fallback)
    ensures r.IsJson() && r.parsed.Some? && r.parsed.value.JStr? ==>
              e == Message(Text.Take(r.parsed.value.s, ErrorSliceLength))
    ensures r.IsJson() && r.parsed == Some(JNull) ==> e == NullProperty("message")
    ensures r.IsJson() && r.parsed.Some? && !r.parsed.value.JStr? && !r.parsed.value.JNull? ==>
              e == MessageOr(r.parsed.value, fallback)
    ensures e.Message? || e == NullProperty("message")
  {
    if !r.IsJson() then Message(Text.Take(r.text, ErrorSliceLength))
    else
      match r.parsed
      case None => Message(fallback)
      case Some(JStr(s)) => Message(Text.Take(s, ErrorSliceLength))
      case Some(JNull) => NullProperty("message")
      case Some(v) => MessageOr(v, fallback)
  }

  /** A JSON error body with a truthy `message` gives that message whatever
      the fallback, so every page that shares this rule reports the same
      text for the same body. */
  lemma ErrorBodyPrefersMessage(r: Response, fallback: string, other: string)
    requires r.IsJson() && r.parsed.Some? && TruthyMember(r.parsed.value, "message")
    ensures ErrorBodyMessage(r, fallback) == ErrorBodyMessage(r, other)
              == Message(ToJsString(Member(r.parsed.value, "message").value))
  {
  }

  const NotJsonPrefix := "Unexpected response (not JSON): "

  /** The error for an OK response that is not JSON: the fixed prefix, then
      the start of the body's text. */
  function NotJson(r: Response): (e: Error)
    ensures e.Message? && Text.IsPrefix(NotJsonPrefix, e.text)
    ensures e.text[|NotJsonPrefix|..] == Text.Take(r.text, ErrorSliceLength)
    ensures |e.text| <= |NotJsonPrefix| + ErrorSliceLength
  {
    Message(NotJsonPrefix + Text.Take(r.text, ErrorSliceLength))
  }

  /** Every text the shared non-OK handling produces from the body itself
      is at most 200 characters long. */
  lemma ErrorBodyTruncated(r: Response, fallback: string)
    requires !r.IsJson() || (r.parsed.Some? && r.parsed.value.JStr?)
    ensures ErrorBodyMessage(r, fallback).Message?
    ensures |ErrorBodyMessage(r, fallback).text| <= ErrorSliceLength
  {
  }

  /** The outcome of a data fetch: the data, a redirect to the login page
      (401/403, no error shown), or an error. */
  datatype Fetched<T> = Loaded(value: T) | ToLogin | Failed(error: Error)

  /** `localStorage.getItem('authToken')` used as a condition: `null` and
      `""` both count as "no token". */
  predicate HasToken(token: Option<string>) {
    token.Some? && token.value != ""
  }

  const NoTokenMessage := "No authentication token found"
}
