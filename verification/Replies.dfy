/**
  What the C library answers, and the exceptions those answers turn into
  (include/rmqcxx/Connection.hpp, Exceptions.hpp). Exceptions are only their kind.
*/
module Replies {

  datatype Option<+T> = None | Some(value: T)

  datatype Status = OK | TIMEOUT | SOCKET_ERROR | UNEXPECTED_STATE | OTHER_STATUS(code: int)

  datatype ServerMethod = CONNECTION_CLOSE | CHANNEL_CLOSE | OTHER_METHOD(id: nat)

  datatype Reply =
    | NormalReply
    | MissingReply
    | LibraryError(error: Status)
    | ServerError(id: ServerMethod)
    | UnknownReply(kind: int)

  datatype Exception =
    | RPCException
    | LibraryException
    | ConnectionCloseException
    | ChannelCloseException(channel: nat)
    | FrameException
    | FrameStatusException(status: Status)
    | SocketException
    | OperationException(status: Status)
    | AllocationException
    | UserException

  /** `processReply` (lines 589-609): the exception it throws, if any. */
  function ProcessReply(reply: Reply): Option<Exception> {
    match reply
    case NormalReply => None
    case MissingReply => Some(RPCException)
    case LibraryError(_) => Some(LibraryException)
    case ServerError(id) =>
      (match id
       case CONNECTION_CLOSE => Some(ConnectionCloseException)
       case CHANNEL_CLOSE => Some(ChannelCloseException(0))
       case OTHER_METHOD(_) => Some(RPCException))
    case UnknownReply(_) => Some(RPCException)
  }

  /** A normal reply is the only one that passes. */
  lemma PassesIff(reply: Reply)
    ensures ProcessReply(reply) == None <==> reply == NormalReply
  {
  }

  /** Which exception each other reply is turned into. */
  lemma ReplyThrowsIff(reply: Reply)
    ensures ProcessReply(reply) == Some(LibraryException) <==> reply.LibraryError?
    ensures ProcessReply(reply) == Some(ConnectionCloseException) <==> reply == ServerError(CONNECTION_CLOSE)
    ensures ProcessReply(reply) == Some(ChannelCloseException(0)) <==> reply == ServerError(CHANNEL_CLOSE)
    ensures ProcessReply(reply) == Some(RPCException)
       <==> reply == MissingReply || reply.UnknownReply? || (reply.ServerError? && reply.id.OTHER_METHOD?)
  {
  }
}
