/** The call modes shared by the desktop app and the web client. */
module Types {

  /** The four request/response shapes of a gRPC method. */
  datatype Mode = Unary | ServerStream | ClientStream | BidirectionalStream

  /** The modes whose local side writes a stream of requests; their calls are ended, the others cancelled. */
  predicate IsWriteStream(m: Mode)
  {
    m == ClientStream || m == BidirectionalStream
  }
}
