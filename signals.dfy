/**
 * The values the dispatcher works with: signal, sender and channel
 * identities (with the two sentinels), payload values, receivers and the
 * parameter descriptors that replace run-time signature inspection.
 */
module Signals {

  /**
   * A signal, sender or channel identity. `Any` and `Anonymous` are the two
   * sentinel objects of the dispatcher: `Any` matches every value in its
   * slot, `Anonymous` is the default sender of a send.
   */
  datatype Key = Concrete(id: string) | Any | Anonymous

  /** A value carried in a keyword payload: an identity or some opaque datum. */
  datatype Value = KeyValue(key: Key) | Datum(id: nat)

  /** A keyword payload: argument name to value. */
  type Payload = map<string, Value>

  /** The five kinds of formal parameter a Python callable can declare. */
  datatype ParamKind =
    | PositionalOnly
    | PositionalOrKeyword
    | VarPositional
    | KeywordOnly
    | VarKeyword

  /** One declared formal parameter: its name and its kind. */
  datatype Param = Param(name: string, kind: ParamKind)

  /**
   * A callable receiver: an identity, the name it reports in error
   * messages, and its declared parameter list in declaration order.
   */
  datatype Receiver = Receiver(id: nat, name: string, params: seq<Param>)

  /** One invocation of a receiver: the positional and keyword arguments passed. */
  datatype Call = Call(receiver: Receiver, args: seq<Value>, kwargs: Payload)

  /** The errors connect and send can raise. */
  datatype Error =
      /** connect: the receiver is not callable (a ValueError). */
    | NotCallable(receiver: Receiver)
      /** connect: the sender is None (a ValueError). */
    | AnonymousConnect
      /**
       * send: the payload has an entry named like `safecall`'s own first
       * parameter, so calling `safecall` with it fails (a TypeError).
       */
    | DuplicateArgument(param: string)
      /** safe call: a positional-or-keyword parameter has no payload entry (a TypeError). */
    | MissingArgument(receiverName: string, param: string)
      /** safe call: a keyword-only parameter has no payload entry (a KeyError). */
    | MissingKeyword(param: string)
      /** safe call: the receiver declares a positional-only or variadic positional parameter. */
    | Unsupported(kind: ParamKind)
      /** the receiver itself raised while handling this call. */
    | Raised(call: Call)
}
