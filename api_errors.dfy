/** `profiles/api/errors.py`: a second copy of the token-endpoint half of the OAuth2 error
    hierarchy, without `ClientError`. */
module ApiErrors {
  import opened Wrappers
  import E = Exceptions

  datatype ErrorClass = InvalidClient | InvalidGrant | InvalidRequest | UnsupportedGrantType
  {
    function Code(): (code: string)
      ensures ')' !in code
    {
      match this
      case InvalidClient => "invalid_client"
      case InvalidGrant => "invalid_grant"
      case InvalidRequest => "invalid_request"
      case UnsupportedGrantType => "unsupported_grant_type"
    }

    function Status(): (status: int)
      ensures status == 401 <==> this == InvalidClient
      ensures status == 400 <==> this != InvalidClient
    {
      if this == InvalidClient then 401 else 400
    }
  }

  datatype OAuth2Error = OAuth2Error(cls: ErrorClass, description: Option<string>, message: string)

  /** `cls(description)`. */
  function NewError(cls: ErrorClass, description: Option<string>): (e: OAuth2Error)
    ensures e.cls == cls
    ensures e.description == if Truthy(description) then description else None
    ensures E.ParseMessage(e.message) == Some((cls.Code(), e.description))
  {
    E.MessageRoundTrip(cls.Code(), description);
    OAuth2Error(cls, if Truthy(description) then description else None, E.Message(cls.Code(), description))
  }

  /** The class of the same name in the other hierarchy. */
  function Counterpart(c: ErrorClass): (d: E.ErrorClass)
    ensures !d.IsClientError()
  {
    match c
    case InvalidClient => E.InvalidClient
    case InvalidGrant => E.InvalidGrant
    case InvalidRequest => E.InvalidRequest
    case UnsupportedGrantType => E.UnsupportedGrantType
  }

  /** The two hierarchies agree: the same code, status, description and message for every class
      and description, and no redirect uri. */
  lemma SameAsExceptions(c: ErrorClass, description: Option<string>)
    ensures c.Code() == Counterpart(c).Code() && c.Status() == Counterpart(c).Status()
    ensures var e, f := NewError(c, description), E.NewError(Counterpart(c), description);
            e.description == f.description && e.message == f.message && f.uri.None?
  {
  }
}
