/** `parseRequestError`: the mapping from an API error body
    (`error_code`, `error_message`) to one kind of `RequestError`. */
module ErrorTranslation {
  import opened Nullable
  import opened Text
  import opened Errors
  import opened Json

  const DEACTIVATED_PHRASE: string := "pairing has been deactivated"
  const UNAUTHORIZED_PHRASE: string := "pairing has not been authorized"

  /** Reads `(int)err["error_code"]`, then `(string)err["error_message"]`;
      both are read before any of them is inspected. */
  function ReadErrorFields(err: Option<Object>): Outcome<(int, Option<string>)>
  {
    var codeValue :- Member(err, "error_code");
    var code :- AsInt(codeValue);
    var messageValue :- Member(err, "error_message");
    var message :- AsString(messageValue);
    Returned((code, message))
  }

  /** The message test: case-insensitive search for either phrase. */
  predicate ReportsDeactivation(message: string)
  {
    Contains(Lower(message), DEACTIVATED_PHRASE) || Contains(Lower(message), UNAUTHORIZED_PHRASE)
  }

  /** The decision chain: integer codes first, then the message. */
  function Translate(code: int, message: Option<string>): Exception
  {
    if code == USER_DISABLED_CODE then Request(UserDisabledError)
    else if code == UNKNOWN_USER_CODE then Request(UnknownUserError)
    else if code == UNKNOWN_TERMINAL_CODE then Request(UnknownTerminalError)
    else match message
      case None => Runtime(NullReference)  // `ToLower` on a null message
      case Some(s) =>
        if ReportsDeactivation(s) then Request(PairingDeactivatedError) else Request(RequestError(s))
  }

  /** An error body from which `parseRequestError` throws a `RequestError`:
      an integer code, a string (or null) message, and a non-null message
      whenever the code is not one of the three known ones. */
  ghost predicate WellFormedErrorBody(err: Option<Object>)
  {
    && err.Some?
    && "error_code" in err.value && err.value["error_code"].JInt?
    && "error_message" in err.value && IsNullableString(err.value["error_message"])
    && (err.value["error_message"].JNull? ==>
          err.value["error_code"].i in {USER_DISABLED_CODE, UNKNOWN_USER_CODE, UNKNOWN_TERMINAL_CODE})
  }

  /** `parseRequestError(err)`. It never returns normally: the result is what
      it throws. */
  function ParseRequestError(err: Option<Object>): (r: Exception)
    ensures err.None? ==> r == Runtime(NullReference)
    ensures err.Some? && "error_code" !in err.value ==> r == Runtime(KeyNotFound("error_code"))
  {
    match ReadErrorFields(err)
    case Threw(x) => x
    case Returned((code, message)) => Translate(code, message)
  }

  /** What `parseRequestError` throws is a `RequestError` (or subclass)
      exactly on a well-formed body; each known code then yields its subclass
      whatever the message says, and only that code yields it. */
  lemma KnownCodesFirst(err: Option<Object>)
    ensures ParseRequestError(err).Request? <==> WellFormedErrorBody(err)
    ensures ParseRequestError(err).Request? ==>
      var code := err.value["error_code"].i;
      var kind := ParseRequestError(err).error;
      && (kind == UserDisabledError <==> code == USER_DISABLED_CODE)
      && (kind == UnknownUserError <==> code == UNKNOWN_USER_CODE)
      && (kind == UnknownTerminalError <==> code == UNKNOWN_TERMINAL_CODE)
  {
  }

  /** For any other code the message decides: `PairingDeactivatedError`
      exactly when the lower-cased message contains one of the two phrases,
      and otherwise a plain `RequestError` carrying the message as received,
      not lower-cased. */
  lemma MessageFallback(err: Option<Object>)
    requires WellFormedErrorBody(err)
    requires err.value["error_code"].i !in {USER_DISABLED_CODE, UNKNOWN_USER_CODE, UNKNOWN_TERMINAL_CODE}
    ensures err.value["error_message"].JString?
    ensures var message := err.value["error_message"].s;
      && (ParseRequestError(err) == Request(PairingDeactivatedError) <==> ReportsDeactivation(message))
      && (!ReportsDeactivation(message) ==> ParseRequestError(err) == Request(RequestError(message)))
  {
  }

  /** The error body the service sends for a code and a message. */
  function ErrorBody(code: int, message: Option<string>): Object
  {
    map["error_code" := JInt(code),
        "error_message" := if message.Some? then JString(message.value) else JNull]
  }

  /** Round trip through the declared codes: the body carrying a subclass's
      `ERROR_CODE` is translated back to that subclass, whatever the message. */
  lemma CodeRoundTrip(e: RequestError, message: Option<string>)
    requires e.Code().Some?
    ensures ParseRequestError(Some(ErrorBody(e.Code().value, message))) == Request(e)
  {
  }

  /** The message test ignores letter case: for a code that is not one of
      the three known ones, two messages that lower-case to the same text are
      either both reported as a deactivated pairing or both passed through. */
  lemma TranslationIgnoresCase(code: int, s: string, t: string)
    requires code !in {USER_DISABLED_CODE, UNKNOWN_USER_CODE, UNKNOWN_TERMINAL_CODE}
    requires Lower(s) == Lower(t)
    ensures ParseRequestError(Some(ErrorBody(code, Some(s)))) == Request(PairingDeactivatedError)
      <==> ParseRequestError(Some(ErrorBody(code, Some(t)))) == Request(PairingDeactivatedError)
  {
  }

  /** For any other code, a message holding either phrase anywhere, in any
      letter case, is reported as a deactivated pairing. */
  lemma PhraseAnywhereDeactivates(code: int, before: string, phrase: string, after: string)
    requires code !in {USER_DISABLED_CODE, UNKNOWN_USER_CODE, UNKNOWN_TERMINAL_CODE}
    requires Lower(phrase) == DEACTIVATED_PHRASE || Lower(phrase) == UNAUTHORIZED_PHRASE
    ensures ParseRequestError(Some(ErrorBody(code, Some(before + phrase + after))))
      == Request(PairingDeactivatedError)
  {
    var message := before + phrase + after;
    var err := Some(ErrorBody(code, Some(message)));
    assert Lower(message) == Lower(before) + Lower(phrase) + Lower(after) by {
      LowerAppend(before + phrase, after);
      LowerAppend(before, phrase);
    }
    ContainsInfix(Lower(before), Lower(phrase), Lower(after));
    assert ReportsDeactivation(message);
    MessageFallback(err);
  }
}
