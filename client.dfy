/** `ToopherAPI`: the REST client. Each operation builds its parameters step
    by step, returns the request it would send, and turns the reply it is
    given into the value it returns or the exception it throws. */
module Client {
  import opened Nullable
  import opened Errors
  import opened Json
  import opened Collections
  import opened Status
  import opened Transport

  const DEFAULT_BASE_URL: string := "https://api.toopher.com/v1/"

  const MULTIPLE_USERS: string := "Multiple users with name = "
  const NO_USERS: string := "No users with name = "

  /** A call whose value the caller discards (`void` operations). */
  function Completed<T>(o: Outcome<T>): (r: Outcome<()>)
    ensures r.Returned? <==> o.Returned?
    ensures r.Threw? ==> r.exception == o.exception
  {
    match o
    case Returned(_) => Returned(())
    case Threw(x) => Threw(x)
  }

  /** The parameters `Authenticate` sends ahead of the extras: the pairing
      id, the terminal name, and the action name only when there is one. */
  function AuthenticationHead(pairingId: Option<string>, terminalName: Option<string>,
                              actionName: Option<string>): seq<Entry>
  {
    if actionName.Some? then
      [("pairing_id", pairingId), ("terminal_name", terminalName), ("action_name", actionName)]
    else
      [("pairing_id", pairingId), ("terminal_name", terminalName)]
  }

  /** The extras `AuthenticateByUserName` leaves in the caller's dictionary:
      `user_name` and `terminal_name_extra` take the given values (in place if
      already present, else appended), every other key keeps its value, and
      an empty dictionary receives exactly these two entries. */
  function UserNameExtras(entries: seq<Entry>, userName: Option<string>,
                          terminalIdentifier: Option<string>): (r: seq<Entry>)
    ensures Lookup(r, "user_name") == Some(userName)
    ensures Lookup(r, "terminal_name_extra") == Some(terminalIdentifier)
    ensures forall key :: key != "user_name" && key != "terminal_name_extra" ==> Lookup(r, key) == Lookup(entries, key)
    ensures DistinctKeys(entries) ==> DistinctKeys(r)
    ensures entries == [] ==> r == [("user_name", userName), ("terminal_name_extra", terminalIdentifier)]
  {
    AssignSpec(entries, "user_name", userName);
    AssignSpec(Assign(entries, "user_name", userName), "terminal_name_extra", terminalIdentifier);
    var r := Assign(Assign(entries, "user_name", userName), "terminal_name_extra", terminalIdentifier);
    if entries == [] then
      AssignNewKey([], "user_name", userName);
      AssignNewKey([("user_name", userName)], "terminal_name_extra", terminalIdentifier);
      r
    else
      r
  }

  /** The user search of `SetToopherEnabledForUser`: more than one match and
      no match each fail with their own message naming the user; a single
      match gives that user's `id` (null when the service sends null); a
      reply that is not an array of user objects fails as the casts do. */
  function FindUserId(searchReply: Reply, userName: Option<string>): (r: Outcome<Option<string>>)
    ensures ReadArray(searchReply).Threw? ==> r == Threw(ReadArray(searchReply).exception)
    ensures ReadArray(searchReply) == Returned(None) ==> r == Threw(Runtime(NullReference))
    ensures ReadArray(searchReply).Returned? && ReadArray(searchReply).value.Some? ==>
      var users := ReadArray(searchReply).value.value;
      && (|users| > 1 ==> r == Fail(MULTIPLE_USERS + OrEmpty(userName)))
      && (|users| == 0 ==> r == Fail(NO_USERS + OrEmpty(userName)))
      && (|users| == 1 ==>
            && (r.Returned? <==> users[0].JObject? && "id" in users[0].fields
                                 && IsNullableString(users[0].fields["id"]))
            && (r.Returned? ==> r.value == TextOf(users[0].fields["id"])))
  {
    var found :- ReadArray(searchReply);
    if found.None? then Threw(Runtime(NullReference))  // `jArr.Count` on null
    else
      var users := found.value;
      if |users| > 1 then Fail(MULTIPLE_USERS + OrEmpty(userName))
      else if |users| == 0 then Fail(NO_USERS + OrEmpty(userName))
      else
        var user :- AsObject(users[0]);
        var id :- Member(user, "id");
        AsString(id)
  }

  /** `new PairingStatus(post(...))` or `new PairingStatus(get(...))`: the
      reply as a JSON object, then parsed as a pairing status. */
  function PairingReply(reply: Reply): Outcome<PairingStatus>
  {
    var json :- ReadObject(reply);
    ParsePairingStatus(json)
  }

  /** The same for an authentication status. */
  function AuthenticationReply(reply: Reply): Outcome<AuthenticationStatus>
  {
    var json :- ReadObject(reply);
    ParseAuthenticationStatus(json)
  }

  /** `toopherEnabled ? "false" : "true"`: the flag sent is the negation. */
  function DisableFlag(toopherEnabled: bool): (r: string)
    ensures r == "false" <==> toopherEnabled
    ensures r == "true" <==> !toopherEnabled
  {
    if toopherEnabled then "false" else "true"
  }

  class ToopherApi {
    const consumerKey: Option<string>
    const consumerSecret: Option<string>
    const baseUrl: string

    /** The credentials are kept; a null base URL means the default one. */
    constructor (consumerKey: Option<string>, consumerSecret: Option<string>, baseUrl: Option<string>)
      ensures this.consumerKey == consumerKey && this.consumerSecret == consumerSecret
      ensures baseUrl.Some? ==> this.baseUrl == baseUrl.value
      ensures baseUrl.None? ==> this.baseUrl == DEFAULT_BASE_URL
    {
      this.consumerKey := consumerKey;
      this.consumerSecret := consumerSecret;
      if baseUrl.Some? {
        this.baseUrl := baseUrl.value;
      } else {
        this.baseUrl := DEFAULT_BASE_URL;
      }
    }

    /** `Pair`: posts the pairing phrase, then the user name, then every
      extra in the dictionary's order, and nothing else. */
    method Pair(pairingPhrase: Option<string>, userName: Option<string>, extras: Dictionary?,
                oauthHeader: string, reply: Reply)
      returns (call: Call, status: Outcome<PairingStatus>)
      ensures call.parameters == [("pairing_phrase", pairingPhrase), ("user_name", userName)] + EntriesOf(extras)
      ensures call == Prepare(baseUrl, "POST", "pairings/create", Some(call.parameters), oauthHeader)
      ensures status == PairingReply(reply)
    {
      var parameters := new NameValueCollection();
      parameters.Add("pairing_phrase", pairingPhrase);
      parameters.Add("user_name", userName);
      if extras != null {
        parameters.AddEach(extras.entries);
      }
      call := Prepare(baseUrl, "POST", "pairings/create", Some(parameters.entries), oauthHeader);
      status := PairingReply(reply);
    }

    /** `GetPairingStatus`: a GET of `pairings/<id>` without parameters. */
    method GetPairingStatus(pairingRequestId: Option<string>, oauthHeader: string, reply: Reply)
      returns (call: Call, status: Outcome<PairingStatus>)
      ensures call == Prepare(baseUrl, "GET", "pairings/" + OrEmpty(pairingRequestId), None, oauthHeader)
      ensures call.parameters == []
      ensures status == PairingReply(reply)
    {
      var endpoint := "pairings/" + OrEmpty(pairingRequestId);
      call := Prepare(baseUrl, "GET", endpoint, None, oauthHeader);
      status := PairingReply(reply);
    }

    /** `Authenticate`: posts the pairing id, the terminal name, the action
      name only when it is not null, then every extra in order. */
    method Authenticate(pairingId: Option<string>, terminalName: Option<string>, actionName: Option<string>,
                        extras: Dictionary?, oauthHeader: string, reply: Reply)
      returns (call: Call, status: Outcome<AuthenticationStatus>)
      ensures call.parameters == AuthenticationHead(pairingId, terminalName, actionName) + EntriesOf(extras)
      ensures call == Prepare(baseUrl, "POST", "authentication_requests/initiate", Some(call.parameters), oauthHeader)
      ensures status == AuthenticationReply(reply)
    {
      var parameters := new NameValueCollection();
      parameters.Add("pairing_id", pairingId);
      parameters.Add("terminal_name", terminalName);
      if actionName.Some? {
        parameters.Add("action_name", actionName);
      }
      assert parameters.entries == AuthenticationHead(pairingId, terminalName, actionName);
      if extras != null {
        parameters.AddEach(extras.entries);
      }
      call := Prepare(baseUrl, "POST", "authentication_requests/initiate", Some(parameters.entries), oauthHeader);
      status := AuthenticationReply(reply);
    }

    /** `AuthenticateByUserName`: writes the user name and the terminal
      identifier into the caller's dictionary (a fresh one when the caller
      passes null), then authenticates with a null pairing id and a null
      terminal name. */
    method AuthenticateByUserName(userName: Option<string>, terminalIdentifier: Option<string>,
                                  actionName: Option<string>, extras: Dictionary?,
                                  oauthHeader: string, reply: Reply)
      returns (call: Call, status: Outcome<AuthenticationStatus>)
      requires extras != null ==> extras.Valid()
      modifies extras
      ensures extras != null ==> extras.Valid()
      ensures extras != null ==>
        extras.entries == UserNameExtras(old(extras.entries), userName, terminalIdentifier)
      ensures call.parameters == AuthenticationHead(None, None, actionName)
        + UserNameExtras(old(EntriesOf(extras)), userName, terminalIdentifier)
      ensures call == Prepare(baseUrl, "POST", "authentication_requests/initiate", Some(call.parameters), oauthHeader)
      ensures status == AuthenticationReply(reply)
    {
      var dictionary := extras;
      if dictionary == null {
        dictionary := new Dictionary();
      }
      dictionary.Put("user_name", userName);
      dictionary.Put("terminal_name_extra", terminalIdentifier);
      call, status := Authenticate(None, None, actionName, dictionary, oauthHeader, reply);
    }

    /** `GetAuthenticationStatus`: a GET of `authentication_requests/<id>`
      without parameters. */
    method GetAuthenticationStatus(authenticationRequestId: Option<string>, oauthHeader: string, reply: Reply)
      returns (call: Call, status: Outcome<AuthenticationStatus>)
      ensures call == Prepare(baseUrl, "GET", "authentication_requests/" + OrEmpty(authenticationRequestId),
                              None, oauthHeader)
      ensures call.parameters == []
      ensures status == AuthenticationReply(reply)
    {
      var endpoint := "authentication_requests/" + OrEmpty(authenticationRequestId);
      call := Prepare(baseUrl, "GET", endpoint, None, oauthHeader);
      status := AuthenticationReply(reply);
    }

    /** `AssignUserFriendlyNameToTerminal`: posts exactly the user name, the
      friendly name and the terminal identifier, in that order. */
    method AssignUserFriendlyNameToTerminal(userName: Option<string>, terminalName: Option<string>,
                                            terminalIdentifier: Option<string>, oauthHeader: string, reply: Reply)
      returns (call: Call, outcome: Outcome<()>)
      ensures call.parameters == [("user_name", userName), ("name", terminalName), ("name_extra", terminalIdentifier)]
      ensures call == Prepare(baseUrl, "POST", "user_terminals/create", Some(call.parameters), oauthHeader)
      ensures outcome == Completed(ReadObject(reply))
    {
      var parameters := new NameValueCollection();
      AssignNewKey([], "user_name", userName);
      parameters.Set("user_name", userName);
      AssignNewKey([("user_name", userName)], "name", terminalName);
      parameters.Set("name", terminalName);
      AssignNewKey([("user_name", userName), ("name", terminalName)], "name_extra", terminalIdentifier);
      parameters.Set("name_extra", terminalIdentifier);
      call := Prepare(baseUrl, "POST", "user_terminals/create", Some(parameters.entries), oauthHeader);
      outcome := Completed(ReadObject(reply));
    }

    /** `SetToopherEnabledForUser`: searches `users` by name; when the search
      finds exactly one user, posts to `users/<id>` the single parameter
      `disable_toopher_auth`, the negation of `toopherEnabled`. When the
      search fails, nothing more is sent. */
    method SetToopherEnabledForUser(userName: Option<string>, toopherEnabled: bool,
                                    searchHeader: string, searchReply: Reply,
                                    updateHeader: string, updateReply: Reply)
      returns (calls: seq<Call>, outcome: Outcome<()>)
      ensures var search := Prepare(baseUrl, "GET", "users", Some([("user_name", userName)]), searchHeader);
        var found := FindUserId(searchReply, userName);
        && (found.Threw? ==> calls == [search] && outcome == Threw(found.exception))
        && (found.Returned? ==>
              && calls == [search, Prepare(baseUrl, "POST", "users/" + OrEmpty(found.value),
                                           Some([("disable_toopher_auth", Some(DisableFlag(toopherEnabled)))]),
                                           updateHeader)]
              && outcome == Completed(ReadObject(updateReply)))
    {
      var parameters := new NameValueCollection();
      AssignNewKey([], "user_name", userName);
      parameters.Set("user_name", userName);
      assert parameters.entries == [("user_name", userName)];
      var search := Prepare(baseUrl, "GET", "users", Some(parameters.entries), searchHeader);
      var found := FindUserId(searchReply, userName);
      if found.Threw? {
        calls, outcome := [search], Threw(found.exception);
      } else {
        var updateEndpoint := "users/" + OrEmpty(found.value);
        parameters := new NameValueCollection();
        AssignNewKey([], "disable_toopher_auth", Some(DisableFlag(toopherEnabled)));
        parameters.Set("disable_toopher_auth", Some(DisableFlag(toopherEnabled)));
        assert parameters.entries == [("disable_toopher_auth", Some(DisableFlag(toopherEnabled)))];
        var update := Prepare(baseUrl, "POST", updateEndpoint, Some(parameters.entries), updateHeader);
        calls, outcome := [search, update], Completed(ReadObject(updateReply));
      }
    }
  }
}
