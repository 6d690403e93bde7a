/**
 What a route handler answers. Every handler catches storage errors and answers 500;
 a missing card is 404; success is 200, or 201 for creation
 (sections 15.3.1, 15.3.2, 15.5.5 and 15.6.1 of RFC 9110).
 */
module Http {

  /** The body `{ success: true }`. */
  datatype Ack = Success

  datatype Reply<T> = Created(body: T) | Ok(body: T) | NotFound | ServerError {

    function StatusCode(): (code: int)
      ensures code == 201 <==> Created?
      ensures code == 200 <==> Ok?
      ensures code == 404 <==> NotFound?
      ensures code == 500 <==> ServerError?
    {
      match this
      case Created(_) => 201
      case Ok(_) => 200
      case NotFound => 404
      case ServerError => 500
    }
  }
}
