/** What a handler sends back, and a handler step over a store. */
module Http {
  import opened Schemas
  import opened Db

  /** The JSON (or text) body of a response. */
  datatype Payload =
      /** `{ error }` */
    | ErrorJson(error: string)
      /** `{ error, details }` with zod's issues. */
    | InvalidInput(error: string, details: seq<Issue>)
      /** A plain-text body sent with `res.send`. */
    | Text(text: string)
      /** `{ id, username, message }` of a created user. */
    | UserCreated(id: string, username: string, message: string)
      /** `{ token, message }` of a successful login. */
    | LoginSucceeded(token: string, message: string)
      /** The created website row as JSON. */
    | WebsiteRow(website: Website)

  datatype Response = Response(status: int, payload: Payload)

  /** `res.status(status).json({ error: message })`. */
  function Fail(status: int, message: string): Response {
    Response(status, ErrorJson(message))
  }

  /** A handler's effect: the store after the request and the response sent. */
  datatype Step<+S> = Step(store: S, response: Response)
}
