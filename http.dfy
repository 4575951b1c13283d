/** The responses the handlers send: a status code and a JSON body. */
module Http {
  import opened Js
  import opened Models

  datatype Body =
    | Message(message: string)
      /** `{ message: 'Login successful', token, admin }` */
    | LoginSuccess(message: string, token: string, admin: AdminView)
      /** `{ success: true, message: 'Blog created' }` */
    | BlogCreated(success: bool, message: string)
      /** `{ success: true, message: 'Blog updated', blog }`; `blog` is null when no post has the id */
    | BlogUpdated(success: bool, message: string, blog: Option<Blog>)

  datatype Reply = Reply(status: int, body: Body)

  function Msg(status: int, message: string): Reply {
    Reply(status, Message(message))
  }

  /** The reply of every route whose required body fields are not all truthy. */
  const MissingFields: Reply := Msg(400, "Missing fields")

  /** What every handler's `catch` sends. */
  const ServerError: Reply := Msg(500, "Server error")
}
