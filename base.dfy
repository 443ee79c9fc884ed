/** Shared result types. A C++ `throw AL::Exception` becomes `Err`. */
module Base {

  datatype Option<+T> = None | Some(value: T)

  /** What a thrown exception was about. */
  datatype Error =
    | TransportError     // the socket raised
    | ParseError         // the JSON library rejected a payload
    | TypeError          // a typed field read found the wrong kind of value (or none)
    | HandshakeFailed    // "Connection closed" while sending the handshake
    | HandlerError       // an OnConnect subscriber raised

  datatype Result<+T> = Ok(value: T) | Err(error: Error) {
    predicate IsFailure() {
      Err?
    }

    function PropagateFailure<U>(): Result<U>
      requires Err?
    {
      Err(error)
    }

    function Extract(): T
      requires Ok?
    {
      value
    }
  }
}
