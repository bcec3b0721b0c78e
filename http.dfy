/** The part of an Express response object that the handlers write: the status code, the headers
    set with `res.set` and the one body sent with `res.send` or `res.json`. */
module Http {
  import opened JsText
  import opened JsValues

  /** A body: text from `res.send`, a value from `res.json`, raw bytes, or the page Express's
      default error handler writes for an error with the given message. */
  datatype Payload = Text(text: string) | JsonBody(json: Json) | Bytes(data: seq<bv8>) | ErrorPage(message: string)

  /** A complete answer: status, headers and body. */
  datatype Reply = Reply(status: int, headers: map<string, string>, body: Payload)

  /** The `{ error: message }` body the handlers send on a refusal. */
  function ErrorJson(message: string): Json
  {
    JObject([("error", JString(message))])
  }

  class Response {
    var statusCode: int
    var headers: map<string, string>
    var sent: Option<Payload>

    /** A response as Express hands it to a handler: status 200, nothing set, nothing sent. */
    ghost predicate Untouched()
      reads this
    {
      statusCode == 200 && headers == map[] && sent == None
    }

    constructor ()
      ensures Untouched()
    {
      statusCode := 200;
      headers := map[];
      sent := None;
    }

    /** `res.status(code)` */
    method Status(code: int)
      modifies this
      ensures statusCode == code && headers == old(headers) && sent == old(sent)
    {
      statusCode := code;
    }

    /** `res.set(name, value)` */
    method Set(name: string, value: string)
      modifies this
      ensures headers == old(headers)[name := value]
      ensures statusCode == old(statusCode) && sent == old(sent)
    {
      headers := headers[name := value];
    }

    /** `res.send(body)`, and `res.json(value)` with a `JsonBody` */
    method Send(body: Payload)
      modifies this
      ensures sent == Some(body)
      ensures statusCode == old(statusCode) && headers == old(headers)
    {
      sent := Some(body);
    }

    /** An error reaching Express's default error handler, passed on with `next(err)` or thrown
        by a handler: it answers 500 with a page for the error. */
    method Fail(message: string)
      modifies this
      ensures statusCode == 500 && sent == Some(ErrorPage(message)) && headers == old(headers)
    {
      statusCode := 500;
      sent := Some(ErrorPage(message));
    }

    /** Whether the response is the given reply. */
    ghost predicate Shows(r: Reply)
      reads this
    {
      statusCode == r.status && headers == r.headers && sent == Some(r.body)
    }
  }
}
