/**
 * The responses the handlers produce: an HTTP status and the JSON body,
 * kept as a datatype instead of JSON text.
 */
module Responses {
  import opened Timezone
  import opened GongzuoDb
  import opened UserDb

  datatype Status = Ok | Created | BadRequest | Unauthorized | InternalServerError

  /** Why a handler ended in `AppError`, shown as "Something went wrong: ...". */
  datatype Cause =
    | UserNotFound(username: string)   // "User {username} not found"
    | MalformedCredential              // the stored salt or hash is not hex
    | RandomSourceFailed               // the system random source could not fill the salt

  datatype Body =
    | Message(text: string)
    | GongzuoNotFound(gongzuoId: int)       // "Gongzuo {id} not found"
    | GongzuoAlreadyEnded(gongzuoId: int)   // "Gongzuo {id} already ended"
    | GongzuoStarted(gongzuoId: int)        // { "gongzuo_id": id }
    | GongzuoEnded(endedAt: NaiveDateTime)  // { "ended_at": ..., "message": "Gongzuo ended" }
    | GongzuoList(gongzuos: seq<Gongzuo>)
    | GongzuoItem(gongzuo: Gongzuo)
    | LoggedIn(sessionToken: string)        // { "message": "Login successful", "session_token": ... }
    | UserRegistered(user: User)            // { "user": ... }
    | UserList(users: seq<User>)
    | SomethingWentWrong(cause: Cause)

  datatype Response = Response(status: Status, body: Body)
}
