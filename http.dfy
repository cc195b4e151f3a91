/** The parts of an Express request and response that the handlers and middleware touch. */
module Http {
  import opened Js

  /** What `res.status(status).json(body)` sends: the status and the object given to `json`. */
  datatype Response = Response(status: int, body: Obj)

  /** `res.status(status).json({ message })` */
  function Message(status: int, message: string): (r: Response)
    ensures r.status == status && r.body.Keys == {"message"}
  {
    Response(status, map["message" := Str(message)])
  }

  /** `res.status(status).json({ message, error })`, the error envelope. */
  function Envelope(status: int, message: Value, error: Value): (r: Response)
    ensures r.status == status && r.body.Keys == {"message", "error"}
  {
    Response(status, map["message" := message, "error" := error])
  }

  /**
   * A request passing through a middleware chain: its `Authorization` header, the `req.user` slot that
   * `verifyToken` fills, how often `next()` has been called and the responses sent so far.
   */
  class Request {
    const authorization: Option<string>
    var user: Value
    var nextCalls: nat
    var responses: seq<Response>

    constructor (authorization: Option<string>)
      ensures this.authorization == authorization
      ensures user == Undefined && nextCalls == 0 && responses == []
    {
      this.authorization := authorization;
      user := Undefined;
      nextCalls := 0;
      responses := [];
    }

    /** `next()` */
    method Next()
      modifies this
      ensures nextCalls == old(nextCalls) + 1
      ensures user == old(user) && responses == old(responses)
    {
      nextCalls := nextCalls + 1;
    }

    /** `res.status(...).json(...)` */
    method Send(r: Response)
      modifies this
      ensures responses == old(responses) + [r]
      ensures user == old(user) && nextCalls == old(nextCalls)
    {
      responses := responses + [r];
    }
  }
}
