/** sendRconCommand: one connection, one authentication exchange, one
    command exchange. The network is an oracle: a connection attempt is
    either refused (with the error message the runtime reports) or accepted,
    in which case it carries the bytes the server sends back. */
module RconClient {
  import opened Common
  import opened Text
  import opened RconCodec

  datatype Connection = Refused(message: string) | Accepted(incoming: seq<byte>)

  /** The { success, response?, error? } record the delivery loop receives. */
  datatype RconResponse = RconResponse(success: bool, response: Option<seq<byte>>, error: Option<string>)

  /** What one call returns, with the frames it wrote to the socket, in order. */
  datatype Exchange = Exchange(result: RconResponse, sent: seq<seq<byte>>)

  const AuthFailedMessage := "RCON authentication failed"

  /** The message of the error readPacket throws. */
  function ReadErrorMessage(e: ReadError): string
  {
    match e
    case NegativeLength => "Invalid typed array length"
    case StreamEnded => "Connection closed before the frame was complete"
    case ShortPacket => "Offset is outside the bounds of the DataView"
  }

  function Failure(message: string): RconResponse
  {
    RconResponse(false, None, Some(message))
  }

  /** The server's answer to the authentication frame, when it is readable. */
  function AuthReply(conn: Connection): Option<(Packet, seq<byte>)>
  {
    if conn.Accepted? && ReadPacket(conn.incoming).Ok? then Some(ReadPacket(conn.incoming).value) else None
  }

  /** The server accepted the password: its reply is readable and its id is not -1. */
  predicate AuthAccepted(conn: Connection)
  {
    AuthReply(conn).Some? && AuthReply(conn).value.0.id != AuthFailedId
  }

  function SendRconCommand(conn: Connection, password: string, command: string): (x: Exchange)
    // the authentication frame goes first, with id 1 and type 3
    ensures conn.Accepted? ==> |x.sent| >= 1 && x.sent[0] == Frame(1, ServerDataAuth, Utf8(password))
    // the command frame, id 2 and type 2, is written if and only if the password was accepted
    ensures |x.sent| <= 2
    ensures |x.sent| == 2 <==> AuthAccepted(conn)
    ensures |x.sent| == 2 ==> x.sent[1] == Frame(2, ServerDataExecCommand, Utf8(command))
    // a reply id of -1 is an authentication failure
    ensures AuthReply(conn).Some? && AuthReply(conn).value.0.id == AuthFailedId ==>
      x.result == Failure(AuthFailedMessage)
    // success means the password was accepted and the command's reply was read; its body is the response
    ensures x.result.success <==> AuthAccepted(conn) && ReadPacket(AuthReply(conn).value.1).Ok?
    ensures x.result.success ==> x.result.response == Some(ReadPacket(AuthReply(conn).value.1).value.0.body)
    ensures !x.result.success ==> x.result.response.None? && x.result.error.Some?
  {
    match conn
    case Refused(message) => Exchange(Failure(message), [])
    case Accepted(incoming) =>
      var authFrame := Frame(1, ServerDataAuth, Utf8(password));
      match ReadPacket(incoming)
      case Err(e) => Exchange(Failure(ReadErrorMessage(e)), [authFrame])
      case Ok((auth, rest)) =>
        if auth.id == AuthFailedId then
          Exchange(Failure(AuthFailedMessage), [authFrame])
        else
          var commandFrame := Frame(2, ServerDataExecCommand, Utf8(command));
          match ReadPacket(rest)
          case Err(e) => Exchange(Failure(ReadErrorMessage(e)), [authFrame, commandFrame])
          case Ok((reply, _)) => Exchange(RconResponse(true, Some(reply.body), None), [authFrame, commandFrame])
  }

  /** A server that answers with well-formed frames: an authentication
      reply whose id is not -1, then a reply to the command. The call
      succeeds and reports that reply's body. */
  lemma WellBehavedServer(authId: int, replyId: int, output: seq<byte>, rest: seq<byte>, password: string, command: string)
    requires IsInt32(authId) && authId != AuthFailedId && IsInt32(replyId) && 10 + |output| < Two31
    ensures var conn := Accepted(Frame(authId, 2, []) + Frame(replyId, 0, output) + rest);
      SendRconCommand(conn, password, command).result == RconResponse(true, Some(output), None)
  {
    var second := Frame(replyId, 0, output) + rest;
    FrameRoundTrip(authId, 2, [], second);
    assert Frame(authId, 2, []) + Frame(replyId, 0, output) + rest == Frame(authId, 2, []) + second;
    FrameRoundTrip(replyId, 0, output, rest);
  }

  /** A server that refuses the password: failure, and the command never goes out. */
  lemma RefusingServer(rest: seq<byte>, password: string, command: string)
    ensures var x := SendRconCommand(Accepted(Frame(AuthFailedId, 2, []) + rest), password, command);
      x.result == Failure(AuthFailedMessage) && |x.sent| == 1
  {
    FrameRoundTrip(AuthFailedId, 2, [], rest);
  }
}
