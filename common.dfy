/** Vocabulary shared by every handler: optional values, document ids, and the replies a handler sends. */
module Common {

  /** A value that may be missing (`undefined`/`null` in the source). */
  datatype Option<T> = None | Some(value: T) {
    function GetOr(default: T): T {
      if Some? then value else default
    }
  }

  /** A string value that is present and non-empty: what a required String path accepts, and what JavaScript
      treats as true. */
  predicate Filled(s: Option<string>) {
    s.Some? && s.value != ""
  }

  /** A document id as it appears in a request path or in a reference field. */
  type Id = string

  /** One entry of a validation-error list: the field (when the handler reports it) and the message. */
  datatype FieldError = FieldError(field: Option<string>, message: string)

  /** The JSON body a handler sends. */
  datatype Body =
    | Message(text: string)                   // { message }
    | Failure(kind: string, text: string)     // { type, message }
    | Thrown(name: string)                    // { type: error.name, message: error.message } for an error
                                              // raised by the store or a library; its text is not modelled
    | UploadFailure(code: Option<string>, text: string)  // { type: error.code, message: "<message>{<field>}" }
    | FieldErrors(errors: seq<FieldError>)    // { errors: [...] }
    | CountOf(n: int, wrapped: bool)          // { count } when wrapped, the bare number otherwise
    | Flag(b: bool)                           // a bare boolean
    | Document                                // a document; the member's other results say which
    | Items(ids: seq<Id>)                     // a bare array of documents, by id
    | Projected(ids: seq<Id>, keys: set<string>)  // a bare array of documents, by id, each with exactly these keys
    | Page(ids: seq<Id>, currentPage: int, totalPages: int, total: int)  // { products, currentPage, totalPages, totalProducts }
    | Raised(reason: string)                  // { message: error.message } for an error identified by its code
    | Fields(keys: set<string>)               // a JSON object with exactly these top-level keys
    | NoContent                               // `res.end()` or a 204

  /** What a handler does with the response: answer it, or return without answering. */
  datatype Reply = Reply(status: int, body: Body) | NoReply {
    /** The handler answered with this status. */
    predicate Is(code: int) {
      Reply? && status == code
    }
  }

  /** The answer of the three count endpoints: a zero count is reported as a server error. */
  function CountReply(count: nat, failure: string, wrapped: bool): (r: Reply)
    ensures r.Reply? && (r.status == 500 <==> count == 0)
    ensures r.status == 500 ==> r.body == Message(failure)
    ensures r.status != 500 ==> r.status == 200 && r.body.CountOf? && r.body.n == count
  {
    if count == 0 then Reply(500, Message(failure)) else Reply(200, CountOf(count, wrapped))
  }

  /** A store step that throws, counted from 1 in the order the handler issues them; `None` when none does. */
  type Fault = Option<nat>

  predicate FailsAt(fault: Fault, step: nat) {
    fault == Some(step)
  }
}
