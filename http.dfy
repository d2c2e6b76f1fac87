/** The werkzeug HTTP exceptions the endpoints raise before producing a response. */
module Http {
  datatype HttpError =
    | BadRequest(description: string)
    | Forbidden(description: string)
    | NotFound(description: string)
  {
    function Status(): (code: int)
      ensures code == 400 <==> BadRequest?
      ensures code == 403 <==> Forbidden?
      ensures code == 404 <==> NotFound?
    {
      match this
      case BadRequest(_) => 400
      case Forbidden(_) => 403
      case NotFound(_) => 404
    }
  }
}
