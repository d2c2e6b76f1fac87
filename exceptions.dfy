/** `profiles/exceptions.py`: the OAuth2 errors of RFC 6749 the proxy raises, and the
    not-found errors of the repositories and the profile aggregate. */
module Exceptions {
  import opened Wrappers
  import opened Seqs
  import opened Clients

  /** The concrete subclasses of `OAuth2Error`. The last three derive from `ClientError`. */
  datatype ErrorClass =
    | InvalidClient
    | InvalidGrant
    | InvalidRequest
    | UnsupportedGrantType
    | ClientInvalidRequest
    | ClientUnsupportedResourceType
    | ClientInvalidScope
  {
    predicate IsClientError() {
      ClientInvalidRequest? || ClientUnsupportedResourceType? || ClientInvalidScope?
    }

    /** The class attribute `error`. */
    function Code(): (code: string)
      ensures ')' !in code && code != ""
    {
      match this
      case InvalidClient => "invalid_client"
      case InvalidGrant => "invalid_grant"
      case InvalidRequest => "invalid_request"
      case UnsupportedGrantType => "unsupported_grant_type"
      case ClientInvalidRequest => "invalid_request"
      case ClientUnsupportedResourceType => "unsupported_response_type"
      case ClientInvalidScope => "invalid_scope"
    }

    /** The class attribute `status_code`: 400 unless overridden. */
    function Status(): (status: int)
      ensures status == 401 <==> this == InvalidClient
      ensures status == 302 <==> IsClientError()
      ensures status == 400 <==> !IsClientError() && this != InvalidClient
    {
      match this
      case InvalidClient => 401
      case ClientInvalidRequest => 302
      case ClientUnsupportedResourceType => 302
      case ClientInvalidScope => 302
      case _ => 400
    }
  }

  /** The error codes of section 5.2 of RFC 6749 (token endpoint). */
  predicate TokenErrorCode(code: string) {
    code in {"invalid_request", "invalid_client", "invalid_grant", "unauthorized_client",
             "unsupported_grant_type", "invalid_scope"}
  }

  /** The error codes of section 4.1.2.1 of RFC 6749 (authorization endpoint). */
  predicate AuthorizationErrorCode(code: string) {
    code in {"invalid_request", "unauthorized_client", "access_denied", "unsupported_response_type",
             "invalid_scope", "server_error", "temporarily_unavailable"}
  }

  /** Every code is one the standard defines for the endpoint that raises it. */
  lemma CodesAreStandard(c: ErrorClass)
    ensures c.IsClientError() ==> AuthorizationErrorCode(c.Code())
    ensures !c.IsClientError() ==> TokenErrorCode(c.Code())
  {
  }

  /** A raised `OAuth2Error`: `uri` is only set for a `ClientError`. */
  datatype OAuth2Error = OAuth2Error(cls: ErrorClass, description: Option<string>, message: string, uri: Option<string>)
  {
    function Status(): int {
      cls.Status()
    }
  }

  /** The message `OAuth2Error.__init__` builds: the code in parentheses, then the description
      after a space when it is truthy. */
  function Message(code: string, description: Option<string>): (m: string)
    ensures |m| >= |code| + 2 && m[0] == '(' && m[1..|code| + 1] == code && m[|code| + 1] == ')'
    ensures Truthy(description) <==> |m| > |code| + 2
  {
    "(" + code + ")" + if Truthy(description) then " " + description.value else ""
  }

  /** Reads back the code and the description of a message. */
  function ParseMessage(m: string): (r: Option<(string, Option<string>)>)
  {
    if |m| < 2 || m[0] != '(' then None
    else
      match FirstIndex(m[1..], ')')
      case None => None
      case Some(i) =>
        var rest := m[i + 2..];
        if rest == [] then Some((m[1..i + 1], None))
        else if |rest| >= 2 && rest[0] == ' ' then Some((m[1..i + 1], Some(rest[1..])))
        else None
  }

  /** The message determines the code and the stored description: nothing is lost in it. */
  lemma MessageRoundTrip(code: string, description: Option<string>)
    requires ')' !in code
    ensures ParseMessage(Message(code, description)) == Some((code, if Truthy(description) then description else None))
  {
    var m := Message(code, description);
    assert m[1..] == code + ")" + m[|code| + 2..];
    assert FirstIndex(m[1..], ')') == Some(|code|) by {
      assert m[1..][|code|] == ')';
    }
  }

  /** `cls(description)` for an error that is not a `ClientError`. */
  function NewError(cls: ErrorClass, description: Option<string>): (e: OAuth2Error)
    requires !cls.IsClientError()
    ensures e.cls == cls && e.uri.None?
    ensures e.description == if Truthy(description) then description else None
    ensures ParseMessage(e.message) == Some((cls.Code(), e.description))
  {
    MessageRoundTrip(cls.Code(), description);
    OAuth2Error(cls, if Truthy(description) then description else None, Message(cls.Code(), description), None)
  }

  /** `cls(client, description)` for a `ClientError`: it redirects to the client. */
  function NewClientError(cls: ErrorClass, client: Client, description: Option<string>): (e: OAuth2Error)
    requires cls.IsClientError()
    ensures e.cls == cls && e.uri == Some(client.redirectUri) && e.Status() == 302
    ensures e.description == if Truthy(description) then description else None
    ensures ParseMessage(e.message) == Some((cls.Code(), e.description))
  {
    MessageRoundTrip(cls.Code(), description);
    OAuth2Error(cls, if Truthy(description) then description else None, Message(cls.Code(), description),
                Some(client.redirectUri))
  }

  /** The domain errors raised when a lookup finds nothing. Their class bodies are not part of
      this model; a token lookup's message is not either, so it carries the orcid. */
  datatype NotFoundError =
    | ProfileNotFound(message: string)
    | OrcidTokenNotFound(orcid: string)
    | AffiliationNotFound(message: string)
}
