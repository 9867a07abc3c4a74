/** `PairingStatus` and `AuthenticationStatus`: typed views of a decoded
    response object. Construction either extracts every typed field or fails
    with one fixed `RequestError`. */
module Status {
  import opened Nullable
  import opened Errors
  import opened Json

  const PAIRING_PARSE_FAILURE: string := "Could not parse pairing status from response"
  const AUTHENTICATION_PARSE_FAILURE: string := "Could not parse authentication status from response"

  /** The response object is kept whole; `Item` is the C# indexer over it. */
  datatype PairingStatus = PairingStatus(
    raw: Option<Object>,
    id: Option<string>,
    enabled: bool,
    userId: Option<string>,
    userName: Option<string>)
  {
    /** `this[key]`: the kept object's value for `key`; a missing key throws. */
    function Item(key: string): (r: Outcome<Json>)
      ensures r.Returned? <==> raw.Some? && key in raw.value
      ensures r.Returned? ==> r.value == raw.value[key]
      ensures raw.Some? && key !in raw.value ==> r == Threw(Runtime(KeyNotFound(key)))
    {
      Member(raw, key)
    }
  }

  datatype AuthenticationStatus = AuthenticationStatus(
    raw: Option<Object>,
    id: Option<string>,
    pending: bool,
    granted: bool,
    automated: bool,
    reason: Option<string>,
    terminalId: Option<string>,
    terminalName: Option<string>)
  {
    /** `this[key]`: the kept object's value for `key`; a missing key throws. */
    function Item(key: string): (r: Outcome<Json>)
      ensures r.Returned? <==> raw.Some? && key in raw.value
      ensures r.Returned? ==> r.value == raw.value[key]
      ensures raw.Some? && key !in raw.value ==> r == Threw(Runtime(KeyNotFound(key)))
    {
      Member(raw, key)
    }
  }

  /** `key` is present in `m` and holds a string or null. */
  ghost predicate HasText(m: Object, key: string)
  {
    key in m && IsNullableString(m[key])
  }

  /** `key` is present in `m` and holds a boolean. */
  ghost predicate HasFlag(m: Object, key: string)
  {
    key in m && m[key].JBool?
  }

  /** `key` is present in `m` and holds an object. */
  ghost predicate HasObject(m: Object, key: string)
  {
    key in m && m[key].JObject?
  }

  /** The keys and types a pairing status needs. */
  ghost predicate PairingShape(m: Object)
  {
    && HasText(m, "id")
    && HasFlag(m, "enabled")
    && HasObject(m, "user")
    && HasText(m["user"].fields, "id")
    && HasText(m["user"].fields, "name")
  }

  /** The keys and types an authentication status needs. */
  ghost predicate AuthenticationShape(m: Object)
  {
    && HasText(m, "id")
    && HasFlag(m, "pending")
    && HasFlag(m, "granted")
    && HasFlag(m, "automated")
    && HasText(m, "reason")
    && HasObject(m, "terminal")
    && HasText(m["terminal"].fields, "id")
    && HasText(m["terminal"].fields, "name")
  }

  /** The body of the `PairingStatus` constructor's `try` block. */
  function ExtractPairing(dict: Option<Object>): Outcome<PairingStatus>
  {
    var idValue :- Member(dict, "id");
    var id :- AsString(idValue);
    var enabledValue :- Member(dict, "enabled");
    var enabled :- AsBool(enabledValue);
    var userValue :- Member(dict, "user");
    var user :- AsObject(userValue);
    var userIdValue :- Member(user, "id");
    var userId :- AsString(userIdValue);
    var userNameValue :- Member(user, "name");
    var userName :- AsString(userNameValue);
    Returned(PairingStatus(dict, id, enabled, userId, userName))
  }

  /** `new PairingStatus(dict)`: succeeds exactly when the object has the
      pairing shape, every field then equals the JSON value it comes from,
      and every failure is the one fixed `RequestError`. */
  function ParsePairingStatus(dict: Option<Object>): (r: Outcome<PairingStatus>)
    ensures r.Returned? <==> dict.Some? && PairingShape(dict.value)
    ensures r.Returned? ==>
      var m := dict.value;
      var user := m["user"].fields;
      && r.value.raw == dict
      && r.value.id == TextOf(m["id"])
      && r.value.enabled == m["enabled"].b
      && r.value.userId == TextOf(user["id"])
      && r.value.userName == TextOf(user["name"])
    ensures r.Threw? ==> r == Fail(PAIRING_PARSE_FAILURE)
  {
    match ExtractPairing(dict)
    case Returned(status) => Returned(status)
    case Threw(_) => Fail(PAIRING_PARSE_FAILURE)
  }

  /** The body of the `AuthenticationStatus` constructor's `try` block. */
  function ExtractAuthentication(dict: Option<Object>): Outcome<AuthenticationStatus>
  {
    var idValue :- Member(dict, "id");
    var id :- AsString(idValue);
    var pendingValue :- Member(dict, "pending");
    var pending :- AsBool(pendingValue);
    var grantedValue :- Member(dict, "granted");
    var granted :- AsBool(grantedValue);
    var automatedValue :- Member(dict, "automated");
    var automated :- AsBool(automatedValue);
    var reasonValue :- Member(dict, "reason");
    var reason :- AsString(reasonValue);
    var terminalValue :- Member(dict, "terminal");
    var terminal :- AsObject(terminalValue);
    var terminalIdValue :- Member(terminal, "id");
    var terminalId :- AsString(terminalIdValue);
    var terminalNameValue :- Member(terminal, "name");
    var terminalName :- AsString(terminalNameValue);
    Returned(AuthenticationStatus(dict, id, pending, granted, automated, reason, terminalId, terminalName))
  }

  /** `new AuthenticationStatus(dict)`: succeeds exactly when the object has
      the authentication shape, every field then equals the JSON value it
      comes from, and every failure is the one fixed `RequestError`. */
  function ParseAuthenticationStatus(dict: Option<Object>): (r: Outcome<AuthenticationStatus>)
    ensures r.Returned? <==> dict.Some? && AuthenticationShape(dict.value)
    ensures r.Returned? ==>
      var m := dict.value;
      var terminal := m["terminal"].fields;
      && r.value.raw == dict
      && r.value.id == TextOf(m["id"])
      && r.value.pending == m["pending"].b
      && r.value.granted == m["granted"].b
      && r.value.automated == m["automated"].b
      && r.value.reason == TextOf(m["reason"])
      && r.value.terminalId == TextOf(terminal["id"])
      && r.value.terminalName == TextOf(terminal["name"])
    ensures r.Threw? ==> r == Fail(AUTHENTICATION_PARSE_FAILURE)
  {
    match ExtractAuthentication(dict)
    case Returned(status) => Returned(status)
    case Threw(_) => Fail(AUTHENTICATION_PARSE_FAILURE)
  }

  /** Keys the parser does not read never decide the outcome: two objects
      that agree on the required keys parse to statuses that differ only in
      the raw object they keep. */
  lemma PairingIgnoresOtherKeys(m1: Object, m2: Object)
    requires forall k :: k in {"id", "enabled", "user"} ==> (k in m1 <==> k in m2) && (k in m1 ==> m1[k] == m2[k])
    ensures ParsePairingStatus(Some(m1)).Returned? <==> ParsePairingStatus(Some(m2)).Returned?
    ensures ParsePairingStatus(Some(m1)).Returned? ==>
      ParsePairingStatus(Some(m1)).value.(raw := Some(m2)) == ParsePairingStatus(Some(m2)).value
  {
  }
}
