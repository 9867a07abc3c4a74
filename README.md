# Toopher .NET client, modelled in Dafny

This project models `ToopherAPI`, the REST client of the Toopher .NET
library (`ToopherDotNet/ToopherDotNet.cs`). It covers three parts of the client:

- **Request assembly.** Each public operation builds a
  `NameValueCollection` of parameters step by step and picks an endpoint and
  an HTTP verb. `request` then upper-cases the verb, joins the base URL and
  the endpoint, and strips the trailing commas from the OAuth header.
- **Reply handling.** A success body is decoded and cast to `JsonObject` or
  `JsonArray`. An HTTP error becomes a `RequestError` built from the status
  line and the body.
- **Error and status translation.** `parseRequestError` maps an error body
  (`error_code`, `error_message`) to `UserDisabledError`, `UnknownUserError`,
  `UnknownTerminalError`, `PairingDeactivatedError` or a plain
  `RequestError`. The `PairingStatus` and `AuthenticationStatus` constructors
  validate the shape of a reply.

C# `null` is `Option.None`. A thrown exception is the `Threw` case of
`Errors.Outcome`. Its payload is either one of the client's `RequestError`
kinds or a runtime fault: a missing key, a failed cast or unboxing, or a null
dereference. For the values of `Json.Json`, the model follows the C# casts
exactly (except for how integers are boxed, described under "## Left out"):

- `(string)` and `(JsonObject)` let `null` through;
- `(bool)` and `(int)` fail on `null` as well as on a wrong type.

Nothing is sent over the network. The OAuth `Authorization` header and each
server reply are inputs to the operations. Each operation returns the
request it would send (`Transport.Call`) together with what it would return
or throw.

The objects the source updates in place are classes:

- `Client.ToopherApi`, with its credentials and base URL;
- `Collections.NameValueCollection`, the outgoing parameters;
- `Collections.Dictionary`, the caller's extras, which
  `AuthenticateByUserName` writes into.

The parsing and translation code is pure functions.

### Where the code and its documentation disagree

The doc comment of `AuthenticateByUserName` (lines 102-105) promises that
`UserDisabledError`, `UnknownUserError`, `UnknownTerminalError` and
`PairingDeactivatedError` reach the caller. In `request` (lines 224-230),
the call to `parseRequestError` sits inside a `try` whose
`catch (Exception)` also catches those typed errors and rethrows a plain
`RequestError` (status line, `" : "`, body).

So no typed subclass ever leaves `request`, and the final `throw` at line
233 cannot be reached. The model follows the code:

- `Transport.ReadReply` states that every `RequestError` it produces is the
  plain kind.
- `Transport.DisabledUserReportedAsPlainError` shows both sides for the
  disabled-user body: `parseRequestError` alone yields `UserDisabledError`,
  but the request that received the same body reports the generic error.

`parseRequestError` is still modelled and proved in full
(`ErrorTranslation`), since its mapping is what the documentation describes.

## Model

| member | source | states |
|---|---|---|
| Client.ToopherApi.constructor | ToopherDotNet/ToopherDotNet.cs:26-35 | The credentials are kept. The base URL is the given one, or `https://api.toopher.com/v1/` when it is null. |
| Client.ToopherApi.Pair | ToopherDotNet/ToopherDotNet.cs:41-57 | POSTs to `pairings/create`. The parameters are exactly `pairing_phrase`, then `user_name`, then every extra in the dictionary's order (none for a null dictionary). The result is the reply parsed as a pairing status, or the exception the reply or the parse throws. |
| Client.ToopherApi.GetPairingStatus | ToopherDotNet/ToopherDotNet.cs:62-68 | GETs `pairings/<id>` with no parameters (a null id formats as the empty string). The result is the reply parsed as a pairing status. |
| Client.ToopherApi.Authenticate | ToopherDotNet/ToopherDotNet.cs:74-92 | POSTs to `authentication_requests/initiate`. The parameters are `pairing_id`, `terminal_name`, `action_name` only when it is non-null, then every extra in order. The result is the reply parsed as an authentication status. |
| Client.ToopherApi.AuthenticateByUserName | ToopherDotNet/ToopherDotNet.cs:107-116 | The caller's dictionary (if any) ends up holding `user_name` and `terminal_name_extra` with the given values, keeps its distinct keys, and has no other change. The request is `Authenticate` with a null pairing id and terminal name, whose extras are those two assignments applied to the old dictionary (or to an empty one). |
| Client.ToopherApi.GetAuthenticationStatus | ToopherDotNet/ToopherDotNet.cs:122-128 | GETs `authentication_requests/<id>` with no parameters. The result is the reply parsed as an authentication status. |
| Client.ToopherApi.AssignUserFriendlyNameToTerminal | ToopherDotNet/ToopherDotNet.cs:137-145 | POSTs to `user_terminals/create` exactly `user_name`, `name`, `name_extra`, in that order. It completes exactly when the reply is a JSON object or null, and otherwise throws what reading the reply throws. |
| Client.ToopherApi.SetToopherEnabledForUser | ToopherDotNet/ToopherDotNet.cs:155-175 | Always GETs `users` with the single parameter `user_name`. If the user search throws, nothing else is sent and that exception propagates. Otherwise it POSTs to `users/<id>` the single parameter `disable_toopher_auth` (the negation of `toopherEnabled`), and completes as that reply allows. |
| Client.FindUserId | ToopherDotNet/ToopherDotNet.cs:161-169 | A failed search propagates. A null array dereferences null. More than one user gives "Multiple users with name = " + name. None gives "No users with name = " + name. For exactly one user, the id is returned exactly when the element is an object with an `id` that is a string or null. |
| Client.DisableFlag | ToopherDotNet/ToopherDotNet.cs:173 | `"false"` exactly when Toopher is to be enabled, and `"true"` exactly when it is not. |
| Client.UserNameExtras | ToopherDotNet/ToopherDotNet.cs:109-113 | After the two assignments, `user_name` and `terminal_name_extra` hold the given values. Every other key keeps its value and distinct keys stay distinct. An empty dictionary gets exactly those two entries, in that order. |
| Client.Completed | ToopherDotNet/ToopherDotNet.cs:144 | A `void` call completes exactly when the discarded call returned, and otherwise throws the same exception. |
| Transport.PrepareNormalizes | ToopherDotNet/ToopherDotNet.cs:177-193 | The verb sent has no lower-case letter and the same case-insensitive meaning. The URL is the base URL followed by the endpoint. A null parameter collection becomes an empty one. The authorization is the header with only its trailing commas removed, and it never ends in a comma. |
| Transport.ReadReply | ToopherDotNet/ToopherDotNet.cs:203-240 | A success body is returned exactly when it decodes, and otherwise gives "Could not parse response". An error with an empty body gives the status line. An error with any other body gives the status line, " : " and the body. A failure with no response is a null dereference. Every `RequestError` that escapes is the plain kind. |
| Transport.Prepare | ToopherDotNet/ToopherDotNet.cs:177-193 | The URL is the base URL followed by the endpoint, and a null parameter collection is sent as an empty one. `PrepareNormalizes` states the verb and header normalisation. |
| Transport.ReadObject | ToopherDotNet/ToopherDotNet.cs:244-256 | `get` and `post` propagate whatever `request` throws. A returned value passes the `(JsonObject)` cast exactly when it is an object or null, and is then the decoded reply itself (the object, or null). Any other value is an invalid cast. |
| Transport.ReadArray | ToopherDotNet/ToopherDotNet.cs:248-251 | `getArray` propagates whatever `request` throws. A returned value passes the `(JsonArray)` cast exactly when it is an array or null, and is then the decoded reply itself (the array, or null). Any other value is an invalid cast. |
| Transport.TranslateErrorBody | ToopherDotNet/ToopherDotNet.cs:224-227 | The inner `try` block always throws. An undecodable body is a JSON failure, and a body that is neither an object nor null is an invalid cast. For an object or null, it throws exactly what `parseRequestError` throws on it. |
| Transport.DisabledUserReportedAsPlainError | ToopherDotNet/ToopherDotNet.cs:211-233 | For a disabled user's error body, `parseRequestError` alone gives `UserDisabledError`, while the request that received it throws the plain status-line-and-body error. |
| ErrorTranslation.KnownCodesFirst | ToopherDotNet/ToopherDotNet.cs:258-267 | `parseRequestError` throws a `RequestError` (of any kind) exactly on a well-formed body: an integer code, a string or null message, and a non-null message for codes other than 704-706. Each of `UserDisabledError`, `UnknownUserError` and `UnknownTerminalError` is thrown exactly for its own code, whatever the message. |
| ErrorTranslation.MessageFallback | ToopherDotNet/ToopherDotNet.cs:268-274 | For any other code the message is non-null. `PairingDeactivatedError` is thrown exactly when the lower-cased message contains "pairing has been deactivated" or "pairing has not been authorized". Otherwise a plain `RequestError` carries the message unchanged. |
| ErrorTranslation.CodeRoundTrip | ToopherDotNet/ToopherDotNet.cs:258-267 | An error body carrying a subclass's declared `ERROR_CODE` translates back to that subclass, whatever its message. |
| ErrorTranslation.TranslationIgnoresCase | ToopherDotNet/ToopherDotNet.cs:269-271 | For an unknown code, two messages that differ only in letter case are both, or neither, reported as a deactivated pairing. |
| ErrorTranslation.PhraseAnywhereDeactivates | ToopherDotNet/ToopherDotNet.cs:268-271 | For a code other than 704-706, a message containing either phrase anywhere, in any letter case, gives `PairingDeactivatedError`. This covers the service's wording "This pairing has been deactivated." |
| ErrorTranslation.ParseRequestError | ToopherDotNet/ToopherDotNet.cs:258-277 | `parseRequestError` never returns normally. A null body is a null dereference, and a body without `error_code` is a missing key. `KnownCodesFirst` and `MessageFallback` state the rest of the mapping. |
| Errors.RequestError.Code | ToopherDotNet/ToopherDotNet.cs:419-441 | Exactly the three subclasses `UserDisabledError`, `UnknownUserError` and `UnknownTerminalError` declare a code, and it is one of 704, 705 and 706. |
| Status.ParsePairingStatus | ToopherDotNet/ToopherDotNet.cs:319-331 | Succeeds exactly when the object is non-null and has this shape: `id` a string or null, `enabled` a boolean, `user` an object whose `id` and `name` are strings or null. Each field then equals its JSON value and the raw object is kept. Every failure is "Could not parse pairing status from response". |
| Status.ParseAuthenticationStatus | ToopherDotNet/ToopherDotNet.cs:388-405 | Succeeds exactly when the object is non-null and has this shape: `id` and `reason` strings or null, `pending`, `granted` and `automated` booleans, `terminal` an object whose `id` and `name` are strings or null. Each field then equals its JSON value. Every failure is "Could not parse authentication status from response". |
| Status.PairingIgnoresOtherKeys | ToopherDotNet/ToopherDotNet.cs:319-331 | Two objects that agree on `id`, `enabled` and `user` either both parse or both fail, to statuses that differ only in the raw object they keep. |
| Json.AsString | ToopherDotNet/ToopherDotNet.cs:261 | `(string)v` succeeds exactly on a string or null, gives that string or null, and is otherwise an invalid cast. |
| Json.AsBool | ToopherDotNet/ToopherDotNet.cs:324 | `(bool)v` succeeds exactly on a boolean and gives its value. Null is a null dereference, and any other value is an invalid cast. |
| Json.AsInt | ToopherDotNet/ToopherDotNet.cs:260 | `(int)v` succeeds exactly on an integer and gives its value. Null is a null dereference, and any other value is an invalid cast. |
| Json.AsObject | ToopherDotNet/ToopherDotNet.cs:325 | `(JsonObject)v` succeeds exactly on an object or null, gives that object or null, and is otherwise an invalid cast. |
| Json.AsArray | ToopherDotNet/ToopherDotNet.cs:250 | `(JsonArray)v` succeeds exactly on an array or null, gives that array or null, and is otherwise an invalid cast. |
| Status.PairingStatus.Item | ToopherDotNet/ToopherDotNet.cs:285-291 | The indexer returns the kept object's value exactly when the key is present, and a missing key throws `KeyNotFound`. |
| Status.AuthenticationStatus.Item | ToopherDotNet/ToopherDotNet.cs:339-345 | The indexer returns the kept object's value exactly when the key is present, and a missing key throws `KeyNotFound`. |
| Json.Member | ToopherDotNet/ToopherDotNet.cs:285-291 | Indexing a possibly-null JSON object returns a value exactly when the object is non-null and holds the key, and then returns that key's value. |
| Collections.Lookup | ToopherDotNet/ToopherDotNet.cs:141-143 | The value of a key is absent exactly when no entry has that key. When present, it is the value of the first entry with that key. |
| Collections.Without | ToopherDotNet/ToopherDotNet.cs:141-143 | Removing a key leaves no entry with that key, changes no other key's value, and changes nothing when the key was absent. |
| Collections.Replace | ToopherDotNet/ToopherDotNet.cs:141-143 | Overwriting a present key gives it the new value and leaves every other key's value alone. |
| Collections.ReplaceInPlace | ToopherDotNet/ToopherDotNet.cs:112-113 | With distinct keys, overwriting a present key changes that one entry in place: same length, every other entry unchanged. |
| Collections.Assign | ToopherDotNet/ToopherDotNet.cs:141-143 | After indexer assignment the assigned entry is in the list. `AssignSpec` and `AssignNewKey` state the rest. |
| Collections.AssignSpec | ToopherDotNet/ToopherDotNet.cs:112-113 | After indexer assignment the key holds the new value and every other key keeps its value. Distinct keys stay distinct. When the key was present, the keys and their positions are unchanged. |
| Collections.AssignNewKey | ToopherDotNet/ToopherDotNet.cs:141-143 | Assigning a key that is not present appends it at the end. |
| Collections.LookupAppend | ToopherDotNet/ToopherDotNet.cs:50-51 | Appending an entry changes the lookup only for a key that was absent, which then finds the new value. |
| Collections.NameValueCollection.constructor | ToopherDotNet/ToopherDotNet.cs:45 | A new collection is empty. |
| Collections.NameValueCollection.Add | ToopherDotNet/ToopherDotNet.cs:46-47 | `Add` appends the entry, even when its name is already present. |
| Collections.NameValueCollection.AddEach | ToopherDotNet/ToopherDotNet.cs:49-53 | Adding every extra appends them all, in the dictionary's order, after the existing entries. |
| Collections.NameValueCollection.Set | ToopherDotNet/ToopherDotNet.cs:141-143 | The indexer setter's new contents are the indexer assignment of the old contents. |
| Collections.Dictionary.constructor | ToopherDotNet/ToopherDotNet.cs:110 | A new dictionary is empty and has distinct keys. |
| Collections.Dictionary.Put | ToopherDotNet/ToopherDotNet.cs:112-113 | The indexer setter keeps the keys distinct, and its new contents are the indexer assignment of the old contents. |
| Text.Upper | ToopherDotNet/ToopherDotNet.cs:180 | Upper-casing keeps the length and maps each character. |
| Text.UpperKeepsCaseInsensitiveMeaning | ToopherDotNet/ToopherDotNet.cs:180 | An upper-cased verb has no lower-case letter and lower-cases to the same text as the original. |
| Text.Lower | ToopherDotNet/ToopherDotNet.cs:269-270 | Lower-casing keeps the length and maps each character. |
| Text.Contains | ToopherDotNet/ToopherDotNet.cs:269-270 | The empty phrase is always found, and a phrase is found only in a text at least as long as the phrase. `ContainsIff` states the full meaning. |
| Text.ContainsInfix | ToopherDotNet/ToopherDotNet.cs:269-270 | A text contains any phrase placed inside it. |
| Text.LowerAppend | ToopherDotNet/ToopherDotNet.cs:269-270 | Lower-casing distributes over concatenation. |
| Text.ContainsIff | ToopherDotNet/ToopherDotNet.cs:269-270 | `Contains` holds exactly when the phrase occurs at some position of the text. |
| Text.TrimEnd | ToopherDotNet/ToopherDotNet.cs:193 | The result is a prefix of the header, everything cut off is a comma, and the result does not end in a comma. |
| Text.TrimEndUnique | ToopherDotNet/ToopherDotNet.cs:193 | Any prefix with those three properties is exactly `TrimEnd`'s result. |
| Text.TrimEndIdempotent | ToopherDotNet/ToopherDotNet.cs:193 | Trimming twice is the same as trimming once. |
| Nullable.OrEmpty | ToopherDotNet/ToopherDotNet.cs:64 | A null string concatenates or formats as the empty string, and any other string as itself. |

## Left out

- HTTP transport: `WebClient`, the `User-Agent` header built from `VERSION`
  and the runtime version, the query string and `UploadValues` form encoding,
  and the UTF-8 decoding of bodies. A reply is an input (`Transport.Reply`),
  already decoded to JSON or marked undecodable.
- OAuth 1.0 signing (`OAuthRequest.ForRequestToken`,
  `GetAuthorizationHeader`). The header it would produce is an input. The
  credentials are stored but not used by the model.
- JSON text parsing (`SimpleJson.DeserializeObject`). The model also ignores
  that SimpleJson boxes numbers as `long`, under which `(int)` on
  `error_code` would be a bad cast. Integers are modelled as unboxing
  directly.
- `Transport.ReadReply`: the cast of `wex.Response` to `HttpWebResponse` and
  the reading of its stream are not modelled. A `WebException` without a
  response is modelled as a null dereference. The inner exceptions (`ex`,
  `wex`) that `request` attaches to a `RequestError` are not kept.
- `Status.ParsePairingStatus` and `Status.ParseAuthenticationStatus`: the
  inner exception `ex` that the status constructors attach to their
  `RequestError` (lines 329 and 403) is not kept. Only the message is
  modelled.
- `NameValueCollection` treats keys case-insensitively and joins repeated
  values with commas when read. The model keeps entries as an ordered list
  with case-sensitive keys and a single value per entry.
- `Dictionary<string, string>` enumeration order is taken to be insertion
  order, the order .NET yields for a dictionary that never has keys removed.
- `Text.Lower` and `Text.Upper` follow the invariant culture, restricted to
  ASCII letters. `ToLower()` and `ToUpper()` in the source use the current
  culture. Under the Turkish or Azerbaijani culture, `I` lower-cases to a
  dotless `ı`, so "PAIRING HAS BEEN DEACTIVATED" would not match there and
  would give a plain `RequestError`. The model assumes an invariant or
  English-like culture. Case mapping of non-ASCII characters is not modelled.
- `Errors.USER_DISABLED_CODE`, `UNKNOWN_USER_CODE` and `UNKNOWN_TERMINAL_CODE`:
  the source declares the `ERROR_CODE` values as public mutable static
  fields (`static public int ERROR_CODE = 704;`). The model assumes they are
  never reassigned. Reassigning one would change the mapping in
  `parseRequestError`.
- `ToString` of `PairingStatus` and `AuthenticationStatus` (display only).
  The indexer `this[key]` of both status classes is modelled by
  `Json.Member` on the kept raw object.
- The demo programs, the tests and every file other than
  `ToopherDotNet/ToopherDotNet.cs` are not part of this model.
