/**
 * What a handler sends back: a status code and a JSON body.
 */
module Http {
  import opened JsValues

  datatype Body =
    | Message(text: string)                       // { message }
    | Document(doc: Doc)                          // one record
    | Documents(docs: seq<Doc>)                   // a list of records
    | LoginConfirmation(text: string, companyId: Value, branchId: Value, matriz: bool)
    | ServerError                                 // forwarded to the central error handler

  datatype Response = Response(code: int, body: Body)

  /** `res.status(code).json({ message: text })` */
  function Reject(code: int, text: string): Response
  {
    Response(code, Message(text))
  }

  /** `next(error)`: the central handler answers 500 for the store errors. */
  const InternalError: Response := Response(500, ServerError)
}
