/** app/utils.py: the HTTP exception the handlers raise, and the client-address choice. */
module Utils {
  import opened Wrappers

  /** `HTTPException(message, status_code)`: a message and the HTTP status to answer with. */
  datatype HttpException = HttpException(message: string, statusCode: int)

  /** `HTTPException.__init__` records both arguments exactly as given. */
  function NewHttpException(message: string, statusCode: int): (e: HttpException)
    ensures e.message == message
    ensures e.statusCode == statusCode
  {
    HttpException(message, statusCode)
  }

  /**
   * `get_remote_address`: the first `X-Forwarded-For` header value when the
   * request carries any, otherwise the peer address (`remote_addr`, which may be absent).
   * `forwardedFor` is `headers.getlist('X-Forwarded-For')`, one entry per header line.
   */
  function GetRemoteAddress(forwardedFor: seq<string>, remoteAddr: Option<string>): (a: Option<string>)
    ensures forwardedFor == [] ==> a == remoteAddr
    ensures forwardedFor != [] ==> a == Some(forwardedFor[0])
  {
    if forwardedFor == [] then remoteAddr else Some(forwardedFor[0])
  }

  /** The chosen address depends on nothing but the first forwarded value once there is one. */
  lemma ForwardedAddressWins(forwardedFor: seq<string>, later: seq<string>, r1: Option<string>, r2: Option<string>)
    requires forwardedFor != []
    ensures GetRemoteAddress(forwardedFor + later, r1) == GetRemoteAddress(forwardedFor, r2)
  {
    assert (forwardedFor + later)[0] == forwardedFor[0];
  }
}
