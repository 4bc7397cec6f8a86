/**
 * The four error classes of src/application/use-cases/errors/, one datatype.
 * Each class carries its message, a fixed `type` text and a fixed `statusCode`.
 */
module Errors {

  datatype Error =
    | NotFound(message: string)
    | Conflict(message: string)
    | BadRequest(message: string)
    | Unauthorized(message: string)
  {
    /** The HTTP-like `statusCode` field of each error class. */
    function StatusCode(): (code: int)
      ensures 400 <= code < 500
      ensures code == 404 <==> NotFound?
      ensures code == 409 <==> Conflict?
      ensures code == 400 <==> BadRequest?
      ensures code == 401 <==> Unauthorized?
    {
      match this
      case NotFound(_) => 404
      case Conflict(_) => 409
      case BadRequest(_) => 400
      case Unauthorized(_) => 401
    }

    /** The `type` field of each error class. */
    function Kind(): string {
      match this
      case NotFound(_) => "Not Found"
      case Conflict(_) => "Conflict"
      case BadRequest(_) => "Bad Request"
      case Unauthorized(_) => "Unauthorized"
    }
  }

  /** The NotFound message for a bus-station id, shared by the travel and bus-station use cases. */
  function NoStationMessage(id: int): string {
    "Nenhuma rodoviária encontrada com o ID: " + DecimalText(id)
  }

  /** The NotFound message for a travel id, shared by the travel and passenger use cases. */
  function NoTravelMessage(id: int): string {
    "Nenhuma viagem encontrada com o ID: " + DecimalText(id)
  }

  /** A JavaScript template literal's rendering `${n}` of an integer, in decimal. */
  function DecimalText(n: int): string
    decreases if n < 0 then 1 - n else n
  {
    if n < 0 then "-" + DecimalText(-n)
    else if n < 10 then [Digit(n)]
    else DecimalText(n / 10) + [Digit(n % 10)]
  }

  function Digit(d: int): char
    requires 0 <= d < 10
  {
    "0123456789"[d]
  }
}
