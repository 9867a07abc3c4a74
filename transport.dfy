/** `request`, `get`, `getArray` and `post` with the network taken out: what
    would be sent is returned as a `Call`, and what came back is an input,
    a `Reply`, already decoded by the JSON library. */
module Transport {
  import opened Nullable
  import opened Text
  import opened Errors
  import opened Json
  import opened Collections
  import opened ErrorTranslation

  const UNPARSABLE_RESPONSE: string := "Could not parse response"

  /** The request the client would send. */
  datatype Call = Call(verb: string, url: string, parameters: seq<Entry>, authorization: string)

  /** How the exchange ended:
      - `Answered`: a success response, its body decoded (`None` when the
        body is not JSON);
      - `Rejected`: an HTTP error status, with its code name, description,
        body, and the body decoded if it is JSON;
      - `Unanswered`: a `WebException` that carries no response at all. */
  datatype Reply =
    | Answered(parsed: Option<Json>)
    | Rejected(statusCode: string, statusDescription: string, body: string, parsedBody: Option<Json>)
    | Unanswered

  /** The request `request(method, endpoint, parameters)` builds. */
  function Prepare(baseUrl: string, verb: string, endpoint: string,
                   parameters: Option<seq<Entry>>, oauthHeader: string): (r: Call)
    ensures r.url == baseUrl + endpoint
    ensures parameters.None? ==> r.parameters == []
    ensures parameters.Some? ==> r.parameters == parameters.value
  {
    var entries := if parameters.Some? then parameters.value else [];
    Call(Upper(verb), baseUrl + endpoint, entries, TrimEnd(oauthHeader, ','))
  }

  /** What `request` does to its arguments before sending: the method is
      upper-cased (and so names the same method, ignoring case), the endpoint
      is appended to the base URL, no parameters stand for an empty
      collection, and the OAuth library's `Authorization` header loses its
      trailing commas, and only those: the rest of the header is kept. */
  lemma PrepareNormalizes(baseUrl: string, verb: string, endpoint: string,
                          parameters: Option<seq<Entry>>, oauthHeader: string)
    ensures var c := Prepare(baseUrl, verb, endpoint, parameters, oauthHeader);
      && NoLowerCase(c.verb) && Lower(c.verb) == Lower(verb)
      && c.url == baseUrl + endpoint
      && (parameters.None? ==> c.parameters == [])
      && (parameters.Some? ==> c.parameters == parameters.value)
      && c.authorization <= oauthHeader
      && (forall i :: |c.authorization| <= i < |oauthHeader| ==> oauthHeader[i] == ',')
      && (c.authorization == [] || c.authorization[|c.authorization| - 1] != ',')
  {
    UpperKeepsCaseInsensitiveMeaning(verb);
  }

  /** `statusCode + " : " + statusDescription`. */
  function StatusLine(statusCode: string, statusDescription: string): string
  {
    statusCode + " : " + statusDescription
  }

  /** The inner `try` block of the error path: decode the body, cast it to
      `JsonObject`, and hand it to `parseRequestError`. It never completes
      normally. */
  function TranslateErrorBody(parsedBody: Option<Json>): (r: Outcome<()>)
    ensures r.Threw?
    ensures parsedBody.None? ==> r == Threw(Runtime(InvalidJson))
    ensures parsedBody.Some? && !parsedBody.value.JObject? && !parsedBody.value.JNull? ==>
      r == Threw(Runtime(InvalidCast))
    ensures parsedBody.Some? && parsedBody.value.JObject? ==>
      r == Threw(ParseRequestError(Some(parsedBody.value.fields)))
    ensures parsedBody == Some(JNull) ==> r == Threw(ParseRequestError(None))
  {
    match parsedBody
    case None => Threw(Runtime(InvalidJson))
    case Some(j) =>
      var err :- AsObject(j);
      Threw(ParseRequestError(err))
  }

  /** What `request` returns or throws once the reply is in. A success body
      that decodes is returned, one that does not gives "Could not parse
      response". An error status with an empty body gives the status line;
      with any other body it gives the status line and the body, whatever the
      body says: the `catch (Exception)` around `parseRequestError` also
      catches the typed errors it throws, so no typed subclass ever leaves
      `request`. A `WebException` without a response dereferences null. */
  function ReadReply(reply: Reply): (r: Outcome<Json>)
    ensures reply.Answered? ==>
      && (r.Returned? <==> reply.parsed.Some?)
      && (r.Returned? ==> r.value == reply.parsed.value)
      && (r.Threw? ==> r == Fail(UNPARSABLE_RESPONSE))
    ensures reply.Rejected? && reply.body == "" ==>
      r == Fail(StatusLine(reply.statusCode, reply.statusDescription))
    ensures reply.Rejected? && reply.body != "" ==>
      r == Fail(StatusLine(reply.statusCode, reply.statusDescription) + " : " + reply.body)
    ensures reply.Unanswered? ==> r == Threw(Runtime(NullReference))
    ensures r.Threw? && r.exception.Request? ==> r.exception.error.RequestError?
  {
    match reply
    case Unanswered => Threw(Runtime(NullReference))
    case Rejected(code, description, body, parsedBody) =>
      var statusLine := StatusLine(code, description);
      if body == "" then Fail(statusLine)
      else
        (match TranslateErrorBody(parsedBody)
         case Threw(_) => Fail(statusLine + " : " + body)
         case Returned(_) => Fail(body))  // never reached
    case Answered(parsed) =>
      if parsed.Some? then Returned(parsed.value) else Fail(UNPARSABLE_RESPONSE)
  }

  /** `get` and `post`: the reply cast to `JsonObject` (null passes). */
  function ReadObject(reply: Reply): (r: Outcome<Option<Object>>)
    ensures ReadReply(reply).Threw? ==> r.Threw? && r.exception == ReadReply(reply).exception
    ensures ReadReply(reply).Returned? ==>
      && (r.Returned? <==> ReadReply(reply).value.JObject? || ReadReply(reply).value.JNull?)
      && (r.Threw? ==> r == Threw(Runtime(InvalidCast)))
    ensures forall m :: ReadReply(reply) == Returned(JObject(m)) ==> r == Returned(Some(m))
    ensures ReadReply(reply) == Returned(JNull) ==> r == Returned(None)
  {
    var j :- ReadReply(reply);
    AsObject(j)
  }

  /** `getArray`: the reply cast to `JsonArray` (null passes). */
  function ReadArray(reply: Reply): (r: Outcome<Option<seq<Json>>>)
    ensures ReadReply(reply).Threw? ==> r.Threw? && r.exception == ReadReply(reply).exception
    ensures ReadReply(reply).Returned? ==>
      && (r.Returned? <==> ReadReply(reply).value.JArray? || ReadReply(reply).value.JNull?)
      && (r.Threw? ==> r == Threw(Runtime(InvalidCast)))
    ensures forall a :: ReadReply(reply) == Returned(JArray(a)) ==> r == Returned(Some(a))
    ensures ReadReply(reply) == Returned(JNull) ==> r == Returned(None)
  {
    var j :- ReadReply(reply);
    AsArray(j)
  }

  /** The error body the service sends for a disabled user is translated to
      `UserDisabledError` on its own, yet the request that received it
      reports only a plain `RequestError` with the status line and body. */
  lemma DisabledUserReportedAsPlainError(statusCode: string, statusDescription: string,
                                         body: string, message: string)
    requires body != ""
    ensures ParseRequestError(Some(ErrorBody(USER_DISABLED_CODE, Some(message))))
      == Request(UserDisabledError)
    ensures ReadReply(Rejected(statusCode, statusDescription, body,
                               Some(JObject(ErrorBody(USER_DISABLED_CODE, Some(message))))))
      == Fail(StatusLine(statusCode, statusDescription) + " : " + body)
  {
  }
}
