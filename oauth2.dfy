/** `profiles/api/oauth2.py`: the OAuth2 authorization-code proxy between the registered
    clients and the identity provider (RFC 6749). Each endpoint's guard chain is a function
    from the request to exactly one outcome; the tail of the token endpoint, which finds or
    creates the profile and stores the token, is a method over the stores.

    Query strings, forms and the state blob are ordered key/value sequences before encoding.
    `json.dumps` and `json.loads` of the state are the parameters `encode` and `decode`. */
module OAuth2 {
  import opened Wrappers
  import opened Seqs
  import opened Pairs
  import opened Json
  import opened Http
  import opened Utilities
  import opened Clients
  import opened Exceptions
  import opened Models
  import opened Profiles
  import opened Stores

  /** The provider settings (`orcid[...]`) and this service's callback URI (`url_for('oauth._check')`). */
  datatype Config = Config(authorizeUri: string, tokenUri: string, clientId: string, clientSecret: string, callbackUri: string)

  /** The scope requested from the provider. */
  const Scope := "/authenticate"

  // ---------------------------------------------------------------------------------------
  // /authorize

  datatype AuthorizeOutcome =
    | AuthorizeRejected(error: HttpError)
    | AuthorizeClientError(clientError: OAuth2Error)
    | RedirectToProvider(uri: string, query: seq<(string, string)>)

  /** The state handed to the provider and returned to `/check`: the client's redirect URI and
      id, and the client's own `state` when it sent one, and nothing else. */
  function StateBlob(client: Client, original: Option<string>): (blob: Json)
    ensures blob.JObject?
    ensures blob.Member("redirect_uri") == Some(JString(client.redirectUri))
    ensures blob.Member("client_id") == Some(JString(client.clientId))
    ensures blob.Member("original") == AsJson(original)
    ensures blob.members.Keys == {"redirect_uri", "client_id"} + (if original.Some? then {"original"} else {})
  {
    StateItemsKept(client, original);
    JObject(ToMap(Unwrap(RemoveNoneValues(StateItems(client, original)))))
  }

  function StateItems(client: Client, original: Option<string>): seq<(string, Option<Json>)> {
    [("redirect_uri", Some(JString(client.redirectUri))),
     ("client_id", Some(JString(client.clientId))),
     ("original", AsJson(original))]
  }

  /** Dropping the `None`s from the state's items keeps the two client members, and `original`
      exactly when there was one. */
  lemma StateItemsKept(client: Client, original: Option<string>)
    ensures var m := ToMap(Unwrap(RemoveNoneValues(StateItems(client, original))));
            && m.Keys == {"redirect_uri", "client_id"} + (if original.Some? then {"original"} else {})
            && m["redirect_uri"] == JString(client.redirectUri)
            && m["client_id"] == JString(client.clientId)
            && (original.Some? ==> m["original"] == JString(original.value))
            && (original.None? ==> "original" !in m)
  {
    var present := StatePresent(client, original);
    StateUnwrapped(client, original);
    StateMap(present, client, original);
  }

  /** The state's items once the `None` is dropped and the values unwrapped. */
  function StatePresent(client: Client, original: Option<string>): seq<(string, Json)> {
    [("redirect_uri", JString(client.redirectUri)), ("client_id", JString(client.clientId))] +
    (if original.Some? then [("original", JString(original.value))] else [])
  }

  lemma StateUnwrapped(client: Client, original: Option<string>)
    ensures Unwrap(RemoveNoneValues(StateItems(client, original))) == StatePresent(client, original)
  {
    var items := StateItems(client, original);
    if original.Some? {
      RemoveNothing(items);
    } else {
      assert items[2..] == [items[2]];
      assert RemoveNoneValues([items[2]]) == [] by {
        assert [items[2]][1..] == [];
      }
      assert items[1..][1..] == items[2..];
      assert RemoveNoneValues(items[1..]) == [items[1]];
      assert RemoveNoneValues(items) == [items[0], items[1]];
    }
  }

  lemma StateMap(present: seq<(string, Json)>, client: Client, original: Option<string>)
    requires present == StatePresent(client, original)
    ensures var m := ToMap(present);
            && m.Keys == {"redirect_uri", "client_id"} + (if original.Some? then {"original"} else {})
            && m["redirect_uri"] == JString(client.redirectUri)
            && m["client_id"] == JString(client.clientId)
            && (original.Some? ==> m["original"] == JString(original.value))
            && (original.None? ==> "original" !in m)
  {
    assert Keys(present) == ["redirect_uri", "client_id"] + (if original.Some? then ["original"] else []);
    assert UniqueKeys(present);
    assert present[0].0 == "redirect_uri" && present[1].0 == "client_id";
    if original.Some? {
      assert present[2].0 == "original";
      assert ToMap(present).Keys == {"redirect_uri", "client_id", "original"};
    } else {
      assert ToMap(present).Keys == {"redirect_uri", "client_id"};
    }
  }

  /** `_authorize()` for the query `args`. */
  function Authorize(clients: Clients, config: Config, args: seq<(string, string)>, encode: Json -> string): (r: AuthorizeOutcome)
    reads clients
    ensures r == AuthorizeRejected(BadRequest("Invalid client_id")) <==>
              !Has(args, "client_id") || clients.Find(Get(args, "client_id").value).None?
  {
    if !Has(args, "client_id") then AuthorizeRejected(BadRequest("Invalid client_id"))
    else
      match clients.Find(Get(args, "client_id").value)
      case None => AuthorizeRejected(BadRequest("Invalid client_id"))
      case Some(client) =>
        if Get(args, "redirect_uri").GetOr(client.redirectUri) != client.redirectUri then
          AuthorizeRejected(BadRequest("Invalid redirect_uri"))
        else if !Truthy(Get(args, "response_type")) then
          AuthorizeClientError(NewClientError(ClientInvalidRequest, client, Some("Missing response_type")))
        else if Get(args, "response_type").value != "code" then
          AuthorizeClientError(NewClientError(ClientUnsupportedResourceType, client, None))
        else if Truthy(Get(args, "scope")) then
          AuthorizeClientError(NewClientError(ClientInvalidScope, client, None))
        else
          RedirectToProvider(config.authorizeUri,
            [("client_id", config.clientId),
             ("response_type", Get(args, "response_type").value),
             ("scope", Scope),
             ("redirect_uri", config.callbackUri),
             ("state", encode(StateBlob(client, Get(args, "state"))))])
  }

  /** The client `_authorize` resolves, when it resolves one. */
  function RequestedClient(clients: Clients, args: seq<(string, string)>): Option<Client>
    reads clients
  {
    if !Has(args, "client_id") then None else clients.Find(Get(args, "client_id").value)
  }

  /** Once the client is known: a redirect_uri other than the client's is rejected before any
      redirect, and an omitted one stands for the client's. */
  lemma AuthorizeRedirectUri(clients: Clients, config: Config, args: seq<(string, string)>, encode: Json -> string)
    requires RequestedClient(clients, args).Some?
    ensures var client := RequestedClient(clients, args).value;
            Authorize(clients, config, args, encode) == AuthorizeRejected(BadRequest("Invalid redirect_uri")) <==>
              Get(args, "redirect_uri").Some? && Get(args, "redirect_uri").value != client.redirectUri
  {
  }

  /** With the client and redirect_uri accepted, the response_type checks come before the scope
      check, and each failure is redirected to the client with the code RFC 6749 names. */
  lemma AuthorizeClientErrors(clients: Clients, config: Config, args: seq<(string, string)>, encode: Json -> string)
    requires RequestedClient(clients, args).Some?
    requires Get(args, "redirect_uri").GetOr(RequestedClient(clients, args).value.redirectUri) == RequestedClient(clients, args).value.redirectUri
    ensures var client, r := RequestedClient(clients, args).value, Authorize(clients, config, args, encode);
            && (!Truthy(Get(args, "response_type")) ==>
                  r.AuthorizeClientError? && r.clientError.cls == ClientInvalidRequest &&
                  r.clientError.description == Some("Missing response_type"))
            && (Truthy(Get(args, "response_type")) && Get(args, "response_type").value != "code" ==>
                  r.AuthorizeClientError? && r.clientError.cls == ClientUnsupportedResourceType)
            && (Get(args, "response_type") == Some("code") && Truthy(Get(args, "scope")) ==>
                  r.AuthorizeClientError? && r.clientError.cls == ClientInvalidScope)
            && (r.AuthorizeClientError? ==> r.clientError.uri == Some(client.redirectUri) && r.clientError.Status() == 302)
            && (r.RedirectToProvider? <==> Get(args, "response_type") == Some("code") && !Truthy(Get(args, "scope")))
  {
  }

  /** Every check of `_authorize` passes. */
  predicate AuthorizeAccepts(clients: Clients, args: seq<(string, string)>)
    reads clients
  {
    && RequestedClient(clients, args).Some?
    && Get(args, "redirect_uri").GetOr(RequestedClient(clients, args).value.redirectUri) == RequestedClient(clients, args).value.redirectUri
    && Get(args, "response_type") == Some("code")
    && !Truthy(Get(args, "scope"))
  }

  /** `_authorize` redirects to the provider exactly when every check passes. */
  lemma AuthorizeAccepted(clients: Clients, config: Config, args: seq<(string, string)>, encode: Json -> string)
    ensures Authorize(clients, config, args, encode).RedirectToProvider? <==> AuthorizeAccepts(clients, args)
  {
    if RequestedClient(clients, args).Some? {
      AuthorizeRedirectUri(clients, config, args, encode);
      if Get(args, "redirect_uri").GetOr(RequestedClient(clients, args).value.redirectUri) == RequestedClient(clients, args).value.redirectUri {
        AuthorizeClientErrors(clients, config, args, encode);
      }
    }
  }

  /** A successful authorization sends the provider its own client id, the response_type `code`,
      the fixed scope and the callback, and a state naming the client. */
  lemma AuthorizeSuccess(clients: Clients, config: Config, args: seq<(string, string)>, encode: Json -> string)
    requires AuthorizeAccepts(clients, args)
    ensures var client, r := RequestedClient(clients, args).value, Authorize(clients, config, args, encode);
            && r.RedirectToProvider?
            && r.uri == config.authorizeUri
            && Keys(r.query) == ["client_id", "response_type", "scope", "redirect_uri", "state"]
            && Get(r.query, "client_id") == Some(config.clientId)
            && Get(r.query, "response_type") == Some("code")
            && Get(r.query, "scope") == Some(Scope)
            && Get(r.query, "redirect_uri") == Some(config.callbackUri)
            && Get(r.query, "state") == Some(encode(StateBlob(client, Get(args, "state"))))
  {
    var client := RequestedClient(clients, args).value;
    AuthorizeRedirect(clients, config, args, encode);
    ProviderQuery(config.clientId, config.callbackUri, encode(StateBlob(client, Get(args, "state"))));
  }

  lemma ProviderQuery(clientId: string, callbackUri: string, state: string)
    ensures var q := [("client_id", clientId), ("response_type", "code"), ("scope", Scope),
                      ("redirect_uri", callbackUri), ("state", state)];
            && Keys(q) == ["client_id", "response_type", "scope", "redirect_uri", "state"]
            && Get(q, "client_id") == Some(clientId)
            && Get(q, "response_type") == Some("code")
            && Get(q, "scope") == Some(Scope)
            && Get(q, "redirect_uri") == Some(callbackUri)
            && Get(q, "state") == Some(state)
  {
    var q := [("client_id", clientId), ("response_type", "code"), ("scope", Scope),
              ("redirect_uri", callbackUri), ("state", state)];
    assert Keys(q) == ["client_id", "response_type", "scope", "redirect_uri", "state"];
    GetAt(q, 0);
    GetAt(q, 1);
    GetAt(q, 2);
    GetAt(q, 3);
    GetAt(q, 4);
  }

  lemma AuthorizeRedirect(clients: Clients, config: Config, args: seq<(string, string)>, encode: Json -> string)
    requires AuthorizeAccepts(clients, args)
    ensures Authorize(clients, config, args, encode) ==
              RedirectToProvider(config.authorizeUri,
                [("client_id", config.clientId), ("response_type", "code"), ("scope", Scope),
                 ("redirect_uri", config.callbackUri),
                 ("state", encode(StateBlob(RequestedClient(clients, args).value, Get(args, "state"))))])
  {
  }

  // ---------------------------------------------------------------------------------------
  // /check

  datatype CheckOutcome =
    | CheckRejected(error: HttpError)
    | CheckFailed(reason: string)
    | RedirectToClient(uri: string, query: seq<(string, Option<Json>)>)

  /** `_check()`. `CheckFailed` is an exception the endpoint does not catch: a state that is not
      a JSON object, or one without a redirect_uri. */
  function Check(clients: Clients, args: seq<(string, string)>, decode: string -> Option<Json>): (r: CheckOutcome)
    reads clients
    ensures r == CheckRejected(BadRequest("Invalid code")) <==> !Has(args, "code") && !Has(args, "error")
    ensures r.RedirectToClient? ==> Has(args, "state") && decode(Get(args, "state").value).Some?
  {
    if !Has(args, "code") && !Has(args, "error") then CheckRejected(BadRequest("Invalid code"))
    else if Get(args, "state").None? || decode(Get(args, "state").value).None? then CheckRejected(BadRequest("Invalid state"))
    else
      var state := decode(Get(args, "state").value).value;
      if !state.JObject? then CheckFailed("state is not subscriptable")
      else
        match StateClient(clients, state)
        case None => CheckRejected(BadRequest("Invalid state (client_id)"))
        case Some(client) =>
          if state.Member("redirect_uri").None? then CheckFailed("KeyError: redirect_uri")
          else if state.Member("redirect_uri") != Some(JString(client.redirectUri)) then
            CheckRejected(BadRequest("Invalid state (redirect_uri)"))
          else
            RedirectToClient(client.redirectUri, RemoveNoneValues(CheckQuery(args, state)))
  }

  /** `clients.find(state['client_id'])`: a missing key and a value equal to no client's id
      (a non-string never is) both raise KeyError. */
  function StateClient(clients: Clients, state: Json): (r: Option<Client>)
    reads clients
    ensures r.Some? <==> && state.Member("client_id").Some? && state.Member("client_id").value.JString?
                         && clients.Find(state.Member("client_id").value.s).Some?
    ensures r.Some? ==> state.Member("client_id") == Some(JString(r.value.clientId)) &&
                        clients.Find(r.value.clientId) == r
  {
    match state.Member("client_id")
    case Some(JString(id)) => clients.Find(id)
    case _ => None
  }

  /** The query `_check` forwards before dropping `None`s. JSON `null` reads back as `None`. */
  function CheckQuery(args: seq<(string, string)>, state: Json): (q: seq<(string, Option<Json>)>)
    ensures Keys(q) == ["code", "error", "error_description", "state"]
    ensures q[0].1.Some? <==> Has(args, "code")
    ensures q[1].1.Some? <==> Has(args, "error")
    ensures q[2].1.Some? <==> Has(args, "error_description")
    ensures q[3].1.Some? <==> state.Member("original").Some? && state.Member("original") != Some(JNull)
    ensures q[3].1.Some? ==> q[3].1 == state.Member("original")
  {
    [("code", AsJson(Get(args, "code"))),
     ("error", AsJson(Get(args, "error"))),
     ("error_description", AsJson(Get(args, "error_description"))),
     ("state", if state.Member("original") == Some(JNull) then None else state.Member("original"))]
  }

  function AsJson(v: Option<string>): Option<Json> {
    if v.Some? then Some(JString(v.value)) else None
  }

  /** The forwarded query keeps code, error, error_description and state in that order, each
      only when present, and the state unchanged. */
  lemma CheckForwards(clients: Clients, args: seq<(string, string)>, decode: string -> Option<Json>)
    requires Check(clients, args, decode).RedirectToClient?
    ensures var r, state := Check(clients, args, decode), decode(Get(args, "state").value).value;
            && r.uri == StateClient(clients, state).value.redirectUri
            && NoNoneValues(r.query)
            && Get(r.query, "code") == (if Has(args, "code") then Some(AsJson(Get(args, "code"))) else None)
            && Get(r.query, "error") == (if Has(args, "error") then Some(AsJson(Get(args, "error"))) else None)
            && Get(r.query, "error_description") == (if Has(args, "error_description") then Some(AsJson(Get(args, "error_description"))) else None)
            && (state.Member("original").Some? && state.Member("original") != Some(JNull) ==>
                  Get(r.query, "state") == Some(state.Member("original")))
            && (state.Member("original").None? || state.Member("original") == Some(JNull) ==>
                  !Has(r.query, "state"))
            && Keys(r.query) == (if Has(args, "code") then ["code"] else []) +
                                ((if Has(args, "error") then ["error"] else []) +
                                 ((if Has(args, "error_description") then ["error_description"] else []) +
                                  (if state.Member("original").Some? && state.Member("original") != Some(JNull) then ["state"] else [])))
  {
    var state := decode(Get(args, "state").value).value;
    CheckRedirected(clients, args, decode);
    ForwardedQuery(args, state);
    ForwardedKeys(args, state);
  }

  /** Each forwarded value is the one `_check` read, present exactly when it is not `None`. */
  lemma ForwardedQuery(args: seq<(string, string)>, state: Json)
    ensures var f := RemoveNoneValues(CheckQuery(args, state));
            && NoNoneValues(f)
            && Get(f, "code") == (if Has(args, "code") then Some(AsJson(Get(args, "code"))) else None)
            && Get(f, "error") == (if Has(args, "error") then Some(AsJson(Get(args, "error"))) else None)
            && Get(f, "error_description") == (if Has(args, "error_description") then Some(AsJson(Get(args, "error_description"))) else None)
            && (state.Member("original").Some? && state.Member("original") != Some(JNull) ==>
                  Get(f, "state") == Some(state.Member("original")))
            && (state.Member("original").None? || state.Member("original") == Some(JNull) ==>
                  !Has(f, "state"))
  {
    var q := CheckQuery(args, state);
    GetAt(q, 0);
    GetAt(q, 1);
    GetAt(q, 2);
    GetAt(q, 3);
    RemoveNoneValuesGet(q, "code");
    RemoveNoneValuesGet(q, "error");
    RemoveNoneValuesGet(q, "error_description");
    RemoveNoneValuesGet(q, "state");
  }

  /** A redirect back to the client comes only from a state that decodes to an object naming a
      known client, and carries that client's redirect URI and the forwarded query. */
  lemma CheckRedirected(clients: Clients, args: seq<(string, string)>, decode: string -> Option<Json>)
    requires Check(clients, args, decode).RedirectToClient?
    ensures Get(args, "state").Some? && decode(Get(args, "state").value).Some?
    ensures var state := decode(Get(args, "state").value).value;
            && state.JObject? && StateClient(clients, state).Some?
            && Check(clients, args, decode) ==
               RedirectToClient(StateClient(clients, state).value.redirectUri, RemoveNoneValues(CheckQuery(args, state)))
  {
  }

  /** The keys of the forwarded query, in order: each of code, error, error_description and
      state exactly when it has a value. */
  lemma ForwardedKeys(args: seq<(string, string)>, state: Json)
    ensures Keys(RemoveNoneValues(CheckQuery(args, state))) ==
              (if Has(args, "code") then ["code"] else []) +
              ((if Has(args, "error") then ["error"] else []) +
               ((if Has(args, "error_description") then ["error_description"] else []) +
                (if state.Member("original").Some? && state.Member("original") != Some(JNull) then ["state"] else [])))
  {
    var q := CheckQuery(args, state);
    var t3 := [q[3]] + [];
    var t2 := [q[2]] + t3;
    var t1 := [q[1]] + t2;
    assert q == [q[0]] + t1;
    RemoveNoneValuesKeysCons(q[3], []);
    RemoveNoneValuesKeysCons(q[2], t3);
    RemoveNoneValuesKeysCons(q[1], t2);
    RemoveNoneValuesKeysCons(q[0], t1);
    assert Keys(RemoveNoneValues<string, Json>([])) == [];
    var a0 := if Has(args, "code") then ["code"] else [];
    var a1 := if Has(args, "error") then ["error"] else [];
    var a2 := if Has(args, "error_description") then ["error_description"] else [];
    var a3 := if state.Member("original").Some? && state.Member("original") != Some(JNull) then ["state"] else [];
    assert Keys(RemoveNoneValues(t3)) == a3;
    assert Keys(RemoveNoneValues(t2)) == a2 + a3;
    assert Keys(RemoveNoneValues(t1)) == a1 + (a2 + a3);
    assert Keys(RemoveNoneValues(q)) == a0 + (a1 + (a2 + a3));
  }

  /** Each rejection of `_check` happens exactly when its own test fails after the earlier ones
      passed: no state or one that does not decode, a state naming no known client, and a state
      whose redirect_uri is not that client's own. */
  lemma CheckRejections(clients: Clients, args: seq<(string, string)>, decode: string -> Option<Json>)
    ensures var r, st := Check(clients, args, decode), Get(args, "state");
            (Has(args, "code") || Has(args, "error")) ==>
              (r == CheckRejected(BadRequest("Invalid state")) <==> st.None? || decode(st.value).None?)
    ensures var r, st := Check(clients, args, decode), Get(args, "state");
            (Has(args, "code") || Has(args, "error")) && st.Some? && decode(st.value).Some? ==>
              (r == CheckFailed("state is not subscriptable") <==> !decode(st.value).value.JObject?)
    ensures var r, st := Check(clients, args, decode), Get(args, "state");
            (Has(args, "code") || Has(args, "error")) && st.Some? && decode(st.value).Some? && decode(st.value).value.JObject? ==>
              (r == CheckRejected(BadRequest("Invalid state (client_id)")) <==> StateClient(clients, decode(st.value).value).None?)
    ensures var r, st := Check(clients, args, decode), Get(args, "state");
            (Has(args, "code") || Has(args, "error")) && st.Some? && decode(st.value).Some? &&
            StateClient(clients, decode(st.value).value).Some? ==>
              var state, client := decode(st.value).value, StateClient(clients, decode(st.value).value).value;
              && (r == CheckFailed("KeyError: redirect_uri") <==> state.Member("redirect_uri").None?)
              && (r == CheckRejected(BadRequest("Invalid state (redirect_uri)")) <==>
                    state.Member("redirect_uri").Some? && state.Member("redirect_uri") != Some(JString(client.redirectUri)))
              && (r.RedirectToClient? <==> state.Member("redirect_uri") == Some(JString(client.redirectUri)))
  {
  }

  /** The two legs compose: when the state text `/authorize` produced comes back to `/check`
      with a code, and `decode` undoes `encode` on it, the browser is sent back to the very client
      that asked, with the code and the client's original state. */
  lemma AuthorizeThenCheck(clients: Clients, config: Config, args: seq<(string, string)>,
                           encode: Json -> string, decode: string -> Option<Json>, code: string)
    requires AuthorizeAccepts(clients, args)
    requires var client := RequestedClient(clients, args).value;
             decode(encode(StateBlob(client, Get(args, "state")))) == Some(StateBlob(client, Get(args, "state")))
    ensures var client := RequestedClient(clients, args).value;
            var back := [("code", code), ("state", encode(StateBlob(client, Get(args, "state"))))];
            Check(clients, back, decode) ==
              RedirectToClient(client.redirectUri,
                [("code", Some(JString(code)))] +
                (if Get(args, "state").Some? then [("state", Some(JString(Get(args, "state").value)))] else []))
  {
    var client := RequestedClient(clients, args).value;
    FindFirst(clients, Get(args, "client_id").value, client);
    var blob := StateBlob(client, Get(args, "state"));
    CheckReturnsState(clients, decode, code, encode(blob), client, Get(args, "state"), blob);
  }

  /** `/check` with a code and a state text that decodes to an object carrying the client's
      redirect URI and id and the original state, as the blob `/authorize` builds does. */
  lemma CheckReturnsState(clients: Clients, decode: string -> Option<Json>, code: string, stateText: string,
                          client: Client, original: Option<string>, blob: Json)
    requires decode(stateText) == Some(blob) && blob.JObject?
    requires blob.Member("redirect_uri") == Some(JString(client.redirectUri))
    requires blob.Member("client_id") == Some(JString(client.clientId))
    requires blob.Member("original") == AsJson(original)
    requires clients.Find(client.clientId) == Some(client)
    ensures Check(clients, [("code", code), ("state", stateText)], decode) ==
              RedirectToClient(client.redirectUri,
                [("code", Some(JString(code)))] + (if original.Some? then [("state", Some(JString(original.value)))] else []))
  {
    var back := [("code", code), ("state", stateText)];
    assert Keys(back) == ["code", "state"];
    GetAt(back, 0);
    GetAt(back, 1);
    assert StateClient(clients, blob) == Some(client);
    var q := CheckQuery(back, blob);
    assert q == [("code", Some(JString(code))), ("error", None), ("error_description", None), ("state", AsJson(original))];
    CheckRedirects(clients, back, decode, client);
    DropTwoAbsent(q);
  }

  /** When every check of `_check` passes, it redirects to the client named in the state. */
  lemma CheckRedirects(clients: Clients, args: seq<(string, string)>, decode: string -> Option<Json>, client: Client)
    requires Has(args, "code") || Has(args, "error")
    requires Get(args, "state").Some? && decode(Get(args, "state").value).Some?
    requires var state := decode(Get(args, "state").value).value;
             && state.JObject? && StateClient(clients, state) == Some(client)
             && state.Member("redirect_uri") == Some(JString(client.redirectUri))
    ensures Check(clients, args, decode) ==
              RedirectToClient(client.redirectUri, RemoveNoneValues(CheckQuery(args, decode(Get(args, "state").value).value)))
  {
  }

  lemma DropTwoAbsent<K(!new), V(!new)>(q: seq<(K, Option<V>)>)
    requires |q| == 4 && q[0].1.Some? && q[1].1.None? && q[2].1.None?
    ensures RemoveNoneValues(q) == [q[0]] + if q[3].1.Some? then [q[3]] else []
  {
    var d := [q[3]];
    assert q[1..][1..][1..] == d;
    assert d[1..] == [];
    assert RemoveNoneValues(d) == if q[3].1.Some? then [q[3]] else [];
    assert RemoveNoneValues(q[1..][1..]) == RemoveNoneValues(d);
    assert RemoveNoneValues(q[1..]) == RemoveNoneValues(d);
  }

  /** The client `find` returns is the first with its id, so looking its own id up finds it again. */
  lemma FindFirst(clients: Clients, id: string, client: Client)
    requires clients.Find(id) == Some(client)
    ensures clients.Find(client.clientId) == Some(client)
  {
  }

  // ---------------------------------------------------------------------------------------
  // /token

  datatype TokenRequestOutcome =
    | TokenRejected(error: OAuth2Error)
    | ExchangeCode(data: seq<(string, string)>)

  /** Every guard of `_token` passes. */
  predicate AcceptableTokenRequest(clients: Clients, form: seq<(string, string)>)
    reads clients
  {
    && Has(form, "client_id")
    && clients.Find(Get(form, "client_id").value).Some?
    && var client := clients.Find(Get(form, "client_id").value).value;
       && Get(form, "client_secret") == Some(client.clientSecret)
       && Get(form, "redirect_uri") == Some(client.redirectUri)
       && Get(form, "grant_type") == Some("authorization_code")
       && Has(form, "code")
  }

  /** The guards of `_token()` for the form `form`, and the form posted to the provider. */
  function TokenRequest(clients: Clients, config: Config, form: seq<(string, string)>): (r: TokenRequestOutcome)
    reads clients
    ensures r.ExchangeCode? <==> AcceptableTokenRequest(clients, form)
  {
    if !Has(form, "client_id") then TokenRejected(NewError(InvalidClient, None))
    else
      match clients.Find(Get(form, "client_id").value)
      case None => TokenRejected(NewError(InvalidClient, None))
      case Some(client) =>
        if Get(form, "client_secret") != Some(client.clientSecret) then TokenRejected(NewError(InvalidClient, None))
        else if Get(form, "redirect_uri") != Some(client.redirectUri) then
          TokenRejected(NewError(InvalidRequest, Some("Invalid redirect_uri")))
        else if Get(form, "grant_type") != Some("authorization_code") then TokenRejected(NewError(UnsupportedGrantType, None))
        else if !Has(form, "code") then TokenRejected(NewError(InvalidGrant, None))
        else
          ExchangeCode(ExchangeForm(config, Get(form, "code").value))
  }

  /** The form `_token` posts to the provider for the client's `code`. */
  function ExchangeForm(config: Config, code: string): seq<(string, string)> {
    [("client_id", config.clientId),
     ("client_secret", config.clientSecret),
     ("redirect_uri", config.callbackUri),
     ("grant_type", "authorization_code"),
     ("code", code)]
  }

  /** The guard order: an unidentified client first (401), then the redirect_uri, the grant
      type and the code (400), each with its RFC 6749 error code. */
  lemma TokenGuardOrder(clients: Clients, config: Config, form: seq<(string, string)>)
    ensures var r := TokenRequest(clients, config, form);
            var client := if Has(form, "client_id") then clients.Find(Get(form, "client_id").value) else None;
            && ((client.None? || Get(form, "client_secret") != Some(client.value.clientSecret)) <==>
                  r.TokenRejected? && r.error.cls == InvalidClient)
            && (client.Some? && Get(form, "client_secret") == Some(client.value.clientSecret) ==>
                  && (Get(form, "redirect_uri") != Some(client.value.redirectUri) <==>
                        r.TokenRejected? && r.error.cls == InvalidRequest)
                  && (Get(form, "redirect_uri") == Some(client.value.redirectUri) &&
                      Get(form, "grant_type") != Some("authorization_code") <==>
                        r.TokenRejected? && r.error.cls == UnsupportedGrantType)
                  && (Get(form, "redirect_uri") == Some(client.value.redirectUri) &&
                      Get(form, "grant_type") == Some("authorization_code") && !Has(form, "code") <==>
                        r.TokenRejected? && r.error.cls == InvalidGrant))
            && (r.TokenRejected? ==> r.error.Status() == (if r.error.cls == InvalidClient then 401 else 400)
                                     && TokenErrorCode(r.error.cls.Code()))
  {
    var r := TokenRequest(clients, config, form);
    if r.TokenRejected? {
      CodesAreStandard(r.error.cls);
    }
  }

  /** The posted form carries the provider's credentials, the callback and the client's code. */
  lemma TokenExchangeData(clients: Clients, config: Config, form: seq<(string, string)>)
    requires TokenRequest(clients, config, form).ExchangeCode?
    ensures var d := TokenRequest(clients, config, form).data;
            && Keys(d) == ["client_id", "client_secret", "redirect_uri", "grant_type", "code"]
            && Get(d, "client_id") == Some(config.clientId) && Get(d, "client_secret") == Some(config.clientSecret)
            && Get(d, "redirect_uri") == Some(config.callbackUri) && Get(d, "code") == Get(form, "code")
  {
    ExchangeFormFields(config, Get(form, "code").value);
  }

  lemma ExchangeFormFields(config: Config, code: string)
    ensures var d := ExchangeForm(config, code);
            && Keys(d) == ["client_id", "client_secret", "redirect_uri", "grant_type", "code"]
            && Get(d, "client_id") == Some(config.clientId) && Get(d, "client_secret") == Some(config.clientSecret)
            && Get(d, "redirect_uri") == Some(config.callbackUri) && Get(d, "code") == Some(code)
  {
    var d := ExchangeForm(config, code);
    assert Keys(d) == ["client_id", "client_secret", "redirect_uri", "grant_type", "code"];
    assert UniqueKeys(d);
    GetAt(d, 0);
    GetAt(d, 1);
    GetAt(d, 2);
    GetAt(d, 4);
  }

  /** Python's `str.lower()` on ASCII letters. */
  function AsciiLower(s: string): (r: string)
    ensures |r| == |s|
    ensures forall i :: 0 <= i < |s| ==> r[i] == if 'A' <= s[i] <= 'Z' then (s[i] as int + 32) as char else s[i]
  {
    seq(|s|, i requires 0 <= i < |s| => if 'A' <= s[i] <= 'Z' then (s[i] as int + 32) as char else s[i])
  }

  /** The token-type check is case-insensitive: a token type lowers to `bearer` exactly when
      it has six characters and each is the small or the capital letter of `bearer`. */
  lemma BearerAnyCase(s: string)
    ensures AsciiLower(s) == "bearer" <==>
              |s| == 6 && forall i :: 0 <= i < 6 ==> s[i] == "bearer"[i] || s[i] == "BEARER"[i]
  {
    if |s| == 6 && forall i :: 0 <= i < 6 ==> s[i] == "bearer"[i] || s[i] == "BEARER"[i] {
      forall i | 0 <= i < 6
        ensures AsciiLower(s)[i] == "bearer"[i]
      {
      }
    }
  }

  /** The provider's answer, checked: the five keys kept, in their order. */
  datatype Grant = Grant(accessToken: string, expiresIn: Json, name: string, orcid: string, tokenType: string)

  const GrantKeys: seq<string> := ["access_token", "expires_in", "name", "orcid", "token_type"]

  function GrantFields(g: Grant): (fields: seq<(string, Json)>)
    ensures Keys(fields) == GrantKeys
  {
    [("access_token", JString(g.accessToken)), ("expires_in", g.expiresIn), ("name", JString(g.name)),
     ("orcid", JString(g.orcid)), ("token_type", JString(g.tokenType))]
  }

  /** The provider response checks of `_token()`. Every failure is an exception the endpoint does
      not catch. A `name`, `orcid` or `access_token` that is not a string is refused too. */
  function ValidateProviderResponse(body: Option<Json>): (r: Result<Grant, string>)
    ensures r.Ok? <==> && body.Some? && body.value.JObject?
                       && (forall k :: k in GrantKeys ==> body.value.Member(k).Some?)
                       && body.value.Member("token_type").value.JString?
                       && AsciiLower(body.value.Member("token_type").value.s) == "bearer"
                       && body.value.Member("name").value.JString?
                       && body.value.Member("orcid").value.JString?
                       && body.value.Member("access_token").value.JString?
    ensures r.Ok? ==> forall k :: k in GrantKeys ==> Get(GrantFields(r.value), k) == body.value.Member(k)
    ensures (body.Some? && body.value.JObject? && body.value.Member("access_token").None?) ==> r == Err("No access_token")
    ensures (body.Some? && body.value.JObject? && body.value.Member("access_token").Some? &&
             body.value.Member("expires_in").None?) ==> r == Err("No expires_in")
  {
    if body.None? then Err("response is not JSON")
    else if !body.value.JObject? then Err("response is not a JSON object")
    else
      var json := body.value;
      if json.Member("access_token").None? then Err("No access_token")
      else if json.Member("expires_in").None? then Err("No expires_in")
      else if !json.Member("token_type").Some? || !json.Member("token_type").value.JString? then
        Err("token_type has no lower()")
      else if AsciiLower(json.Member("token_type").value.s) != "bearer" then
        Err("Got token_type " + json.Member("token_type").value.s + ", expected Bearer")
      else if json.Member("name").None? then Err("KeyError: name")
      else if json.Member("orcid").None? then Err("KeyError: orcid")
      else if !json.Member("name").value.JString? || !json.Member("orcid").value.JString? ||
              !json.Member("access_token").value.JString? then
        Err("name, orcid and access_token must be strings")
      else
        var g := Grant(json.Member("access_token").value.s, json.Member("expires_in").value,
                       json.Member("name").value.s, json.Member("orcid").value.s, json.Member("token_type").value.s);
        GrantFromMembers(json, g);
        Ok(g)
  }

  /** A grant built from an object's five members has those members as its fields. */
  lemma GrantFromMembers(json: Json, g: Grant)
    requires json.JObject?
    requires json.Member("access_token") == Some(JString(g.accessToken))
    requires json.Member("expires_in") == Some(g.expiresIn)
    requires json.Member("name") == Some(JString(g.name))
    requires json.Member("orcid") == Some(JString(g.orcid))
    requires json.Member("token_type") == Some(JString(g.tokenType))
    ensures forall k :: k in GrantKeys ==> Get(GrantFields(g), k) == json.Member(k)
  {
    GrantFieldsGet(g);
    forall k | k in GrantKeys
      ensures Get(GrantFields(g), k) == json.Member(k)
    {
      GrantKeyCases(k);
    }
  }

  /** Each of the five keys finds its own field. */
  lemma GrantFieldsGet(g: Grant)
    ensures Get(GrantFields(g), "access_token") == Some(JString(g.accessToken))
    ensures Get(GrantFields(g), "expires_in") == Some(g.expiresIn)
    ensures Get(GrantFields(g), "name") == Some(JString(g.name))
    ensures Get(GrantFields(g), "orcid") == Some(JString(g.orcid))
    ensures Get(GrantFields(g), "token_type") == Some(JString(g.tokenType))
  {
    var fields := GrantFields(g);
    assert UniqueKeys(fields);
    GetAt(fields, 0);
    GetAt(fields, 1);
    GetAt(fields, 2);
    GetAt(fields, 3);
    GetAt(fields, 4);
  }

  lemma GrantKeyCases(k: string)
    requires k in GrantKeys
    ensures k == "access_token" || k == "expires_in" || k == "name" || k == "orcid" || k == "token_type"
  {
  }

  /** What `_token` answers: an OAuth2 error for a refused request, an uncaught exception for a
      provider answer that fails the checks, or the granted fields with the provider's status. */
  datatype TokenOutcome =
    | TokenRefused(error: OAuth2Error)
    | ProviderRefused(reason: string)
    | TokenGranted(status: int, body: seq<(string, Json)>)

  /** What storing a grant leaves behind, next to the previous state: the profile for the
      grant's orcid is renamed, or one fresh profile with id `freshId` is appended; the token for
      that orcid is updated in place, or one fresh token is appended; no other profile and no
      other token changes. */
  twostate predicate GrantStored(g: Grant, profiles: ProfileStore, tokens: TokenStore,
                                 freshId: string, guess: string -> string, expiresAt: Json -> int)
    reads profiles, tokens, profiles.items, tokens.items
  {
    && ProfileWithOrcid(profiles.items, g.orcid).Ok?
    && TokenWithOrcid(tokens.items, g.orcid).Ok?
    && var p, t := ProfileWithOrcid(profiles.items, g.orcid).value, TokenWithOrcid(tokens.items, g.orcid).value;
    && p.name == NewName(g.name, None, guess)
    && t.accessToken == g.accessToken && t.expiresAt == expiresAt(g.expiresIn)
    && (old(ProfileWithOrcid(profiles.items, g.orcid)).Ok? ==>
          profiles.items == old(profiles.items) && p == old(ProfileWithOrcid(profiles.items, g.orcid)).value)
    && (old(ProfileWithOrcid(profiles.items, g.orcid)).Err? ==>
          && fresh(p) && p.id == freshId && p.orcid == Some(g.orcid)
          && p.affiliations == [] && p.emailAddresses == []
          && profiles.items == old(profiles.items) + [p])
    && old(profiles.items) <= profiles.items
    && (forall q :: q in old(profiles.items) ==>
          q.affiliations == old(q.affiliations) && q.emailAddresses == old(q.emailAddresses))
    && (forall q :: q in old(profiles.items) && q != p ==> q.name == old(q.name))
    && (old(TokenWithOrcid(tokens.items, g.orcid)).Ok? ==>
          tokens.items == old(tokens.items) && t == old(TokenWithOrcid(tokens.items, g.orcid)).value)
    && (old(TokenWithOrcid(tokens.items, g.orcid)).Err? ==> fresh(t) && tokens.items == old(tokens.items) + [t])
    && old(tokens.items) <= tokens.items
    && (forall u :: u in old(tokens.items) && u != t ==>
          u.accessToken == old(u.accessToken) && u.expiresAt == old(u.expiresAt))
  }

  /** The tail of `_token()` once the provider's answer passed the checks: the profile and the
      token for the grant's orcid are stored, and the answer is the five provider fields and the
      profile's id. */
  method StoreGrant(g: Grant, profiles: ProfileStore, tokens: TokenStore,
                    freshId: string, guess: string -> string, expiresAt: Json -> int)
    returns (body: seq<(string, Json)>)
    requires profiles.Valid() && tokens.Valid()
    modifies profiles, tokens, profiles.items, tokens.items
    ensures profiles.Valid() && tokens.Valid()
    ensures GrantStored(g, profiles, tokens, freshId, guess, expiresAt)
    ensures body == GrantFields(g) + [("id", JString(ProfileWithOrcid(profiles.items, g.orcid).value.id))]
    ensures Keys(body) == GrantKeys + ["id"]
  {
    var profile := StoreProfile(g.name, g.orcid, profiles, freshId, guess);
    body := GrantFields(g) + [("id", JString(profile.id))];
    assert Keys(body) == Keys(GrantFields(g)) + ["id"];
    var token := StoreToken(g.orcid, g.accessToken, expiresAt(g.expiresIn), tokens);
  }

  /** The find-or-create of `_token()`: the profile with the orcid is renamed, or a new one with
      the id `freshId` (standing for `profiles.next_id()`) is added. `Name(name)` guesses the
      index with `guess`. */
  method StoreProfile(name: string, orcid: string, profiles: ProfileStore, freshId: string, guess: string -> string)
    returns (profile: Profile)
    requires profiles.Valid()
    modifies profiles, profiles.items
    ensures profiles.Valid()
    // exactly one profile has the orcid, and it carries the provider's name
    ensures ProfileWithOrcid(profiles.items, orcid) == Ok(profile)
    ensures profile.name == NewName(name, None, guess) && profile.orcid == Some(orcid)
    ensures old(ProfileWithOrcid(profiles.items, orcid)).Ok? ==>
              profiles.items == old(profiles.items) && profile == old(ProfileWithOrcid(profiles.items, orcid)).value
    ensures old(ProfileWithOrcid(profiles.items, orcid)).Err? ==>
              fresh(profile) && profile.id == freshId && profiles.items == old(profiles.items) + [profile]
              && profile.affiliations == [] && profile.emailAddresses == []
    ensures forall p :: p in old(profiles.items) ==>
              p.affiliations == old(p.affiliations) && p.emailAddresses == old(p.emailAddresses)
    ensures forall p :: p in old(profiles.items) && p != profile ==> p.name == old(p.name)
  {
    var found := profiles.GetByOrcid(orcid);
    if found.Ok? {
      profile := found.value;
      profile.name := NewName(name, None, guess);
    } else {
      profile := new Profile(freshId, NewName(name, None, guess), Some(orcid));
      profiles.Add(profile);
      ProfileWithOrcidAppend(old(profiles.items), profile, orcid);
      ProfileAppendValid(old(profiles.items), profile, orcid);
    }
  }

  /** The upsert of `_token()`: the token for the orcid is updated in place, or a new one is added. */
  method StoreToken(orcid: string, accessToken: string, expiresAt: int, tokens: TokenStore)
    returns (token: OrcidToken)
    requires tokens.Valid()
    modifies tokens, tokens.items
    ensures tokens.Valid()
    // exactly one token has the orcid, and it carries the provider's token
    ensures TokenWithOrcid(tokens.items, orcid) == Ok(token)
    ensures token.accessToken == accessToken && token.expiresAt == expiresAt
    ensures old(TokenWithOrcid(tokens.items, orcid)).Ok? ==>
              tokens.items == old(tokens.items) && token == old(TokenWithOrcid(tokens.items, orcid)).value
    ensures old(TokenWithOrcid(tokens.items, orcid)).Err? ==> fresh(token) && tokens.items == old(tokens.items) + [token]
    ensures forall t :: t in old(tokens.items) && t != token ==>
              t.accessToken == old(t.accessToken) && t.expiresAt == old(t.expiresAt)
  {
    var existing := tokens.Get(orcid);
    if existing.Ok? {
      token := existing.value;
      token.accessToken := accessToken;
      token.expiresAt := expiresAt;
    } else {
      token := new OrcidToken(orcid, accessToken, expiresAt);
      tokens.Add(token);
      TokenWithOrcidAppend(old(tokens.items), token, orcid);
    }
  }

  /** `_token()`: the request guards, then the provider's answer (its parsed body and status,
      the exchange being I/O), then storing the grant. Nothing is stored unless every check passes. */
  method Token(clients: Clients, config: Config, form: seq<(string, string)>,
               providerBody: Option<Json>, providerStatus: int,
               profiles: ProfileStore, tokens: TokenStore,
               freshId: string, guess: string -> string, expiresAt: Json -> int)
    returns (r: TokenOutcome)
    requires profiles.Valid() && tokens.Valid()
    modifies profiles, tokens, profiles.items, tokens.items
    ensures profiles.Valid() && tokens.Valid()
    ensures TokenRequest(clients, config, form).TokenRejected? ==> r == TokenRefused(TokenRequest(clients, config, form).error)
    ensures TokenRequest(clients, config, form).ExchangeCode? && ValidateProviderResponse(providerBody).Err? ==>
              r == ProviderRefused(ValidateProviderResponse(providerBody).error)
    ensures !r.TokenGranted? ==> profiles.items == old(profiles.items) && tokens.items == old(tokens.items)
    ensures !r.TokenGranted? ==> forall p :: p in old(profiles.items) ==> p.name == old(p.name)
    ensures !r.TokenGranted? ==> forall p :: p in old(profiles.items) ==>
              p.affiliations == old(p.affiliations) && p.emailAddresses == old(p.emailAddresses)
    ensures !r.TokenGranted? ==> forall t :: t in old(tokens.items) ==>
              t.accessToken == old(t.accessToken) && t.expiresAt == old(t.expiresAt)
    ensures r.TokenGranted? <==> AcceptableTokenRequest(clients, form) && ValidateProviderResponse(providerBody).Ok?
    ensures r.TokenGranted? ==>
              GrantStored(ValidateProviderResponse(providerBody).value, profiles, tokens, freshId, guess, expiresAt)
    ensures r.TokenGranted? ==>
              var g := ValidateProviderResponse(providerBody).value;
              && r.status == providerStatus
              && r.body == GrantFields(g) + [("id", JString(ProfileWithOrcid(profiles.items, g.orcid).value.id))]
  {
    var request := TokenRequest(clients, config, form);
    if request.TokenRejected? {
      return TokenRefused(request.error);
    }
    var checked := ValidateProviderResponse(providerBody);
    if checked.Err? {
      return ProviderRefused(checked.error);
    }
    var body := StoreGrant(checked.value, profiles, tokens, freshId, guess, expiresAt);
    r := TokenGranted(providerStatus, body);
  }
}
