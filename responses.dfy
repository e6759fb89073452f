/** HTTP responses of the two services: a status line and one of the JSON body
    shapes the handlers produce. */
module Responses {
  import opened Users

  /** Unhandled Python exceptions; Flask turns each into a 500 response. */
  datatype Fault =
    | HashOfMissingPassword   // `None.encode(...)` when no password is sent
    | UnboundProfilePicKey    // `unique_filename` read when no picture was sent
    | InvalidLimitOrOffset    // MySQL rejects a negative LIMIT or OFFSET

  datatype Body =
    | Message(message: string)                          // {"message": m}
    | Envelope(success: bool, code: int, message: string) // {"status", "status_code", "message"}
    | ProfileData(code: int, profile: Profile)          // {"status": "success", "status_code", "data": row}
    | ProfileList(code: int, profiles: seq<Profile>)    // {"status": "success", "status_code", "data": rows}
    | Msg(msg: string)                                  // login's {"msg": m}
    | AccessToken(token: string)                        // login's {"access_token": t}
    | Error(error: string)                              // upload's {"error": e}
    | Crash(fault: Fault)                               // the 500 page of an unhandled exception

  datatype Response = Response(status: int, body: Body)

  function BadRequest(message: string): Response {
    Response(400, Envelope(false, 400, message))
  }

  function NotFound(message: string): Response {
    Response(404, Envelope(false, 404, message))
  }

  function Ok(message: string): Response {
    Response(200, Envelope(true, 200, message))
  }
}
