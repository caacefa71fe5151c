/** HTTP status codes the endpoints answer with. */
module Http {

  datatype Status = Ok | NoContent | Unauthorized | NotFound | Conflict | InternalServerError
  {
    function Code(): int
    {
      match this
      case Ok => 200
      case NoContent => 204
      case Unauthorized => 401
      case NotFound => 404
      case Conflict => 409
      case InternalServerError => 500
    }
  }
}
