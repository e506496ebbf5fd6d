/**
 * The serverless roster endpoint: it reads the bot token from the server
 * environment, asks Slack's `users.list`, and answers with the filtered
 * directory or with an error status. The token and the outcome of the
 * call are parameters.
 */
module RosterEndpoint {
  import opened Wrappers
  import opened Text
  import opened SlackDirectory
  import opened SlackUtils

  /** The JSON the endpoint sends: `{ users }` or `{ error }`. */
  datatype ResponseBody = Users(users: seq<SlackUser>) | Failure(error: string)

  datatype ApiResponse = ApiResponse(status: int, body: ResponseBody)

  /**
   * `handler`: 400 without a bot token; Slack's own status when the HTTP
   * call fails; 500 when Slack answers `ok: false`; 500 when anything
   * throws (the call itself, a body that does not parse, or a missing
   * member list); otherwise 200 with the filtered members.
   */
  method Handler(token: Option<string>, call: SlackCall) returns (res: ApiResponse)
    ensures !IsBotToken(token) ==> res == ApiResponse(400, Failure("Invalid or missing Slack token"))
    ensures IsBotToken(token) && call.CallThrew? ==> res == ApiResponse(500, Failure("Internal Server Error"))
    ensures IsBotToken(token) && call.Responded? && !call.httpOk ==>
              res == ApiResponse(call.httpStatus, Failure("Slack API error"))
    ensures IsBotToken(token) && call.Responded? && call.httpOk && call.body.SlackJson? && !call.body.ok ==>
              res.status == 500
              && (Truthy(call.body.error) ==> res.body == Failure(call.body.error.value))
              && (!Truthy(call.body.error) ==> res.body == Failure("Slack API response error"))
    ensures IsBotToken(token) && call.Responded? && call.httpOk
            && (call.body.Unparseable? || (call.body.ok && call.body.members.None?)) ==>
              res == ApiResponse(500, Failure("Internal Server Error"))
    ensures res.body.Users? <==> IsBotToken(token) && LiveRoster(call)
    ensures res.body.Users? ==> res.status == 200 && res.body.users == RosterFilter(call.body.members.value)
    ensures res.body.Failure? ==> res.body.error != ""
  {
    if !IsBotToken(token) {
      return ApiResponse(400, Failure("Invalid or missing Slack token"));
    }
    match call {
      case CallThrew =>
        return ApiResponse(500, Failure("Internal Server Error"));
      case Responded(httpOk, httpStatus, body) =>
        if !httpOk {
          return ApiResponse(httpStatus, Failure("Slack API error"));
        }
        match body {
          case Unparseable =>
            return ApiResponse(500, Failure("Internal Server Error"));
          case SlackJson(ok, error, members) =>
            if !ok {
              var message := if Truthy(error) then error.value else "Slack API response error";
              return ApiResponse(500, Failure(message));
            }
            if members.None? {
              return ApiResponse(500, Failure("Internal Server Error"));
            }
            res := ApiResponse(200, Users(RosterFilter(members.value)));
        }
    }
  }
}
