/** What an Express handler sees and produces, reduced to values: the
    session (Passport's `req.isAuthenticated()` and `req.user.id`), the status
    and JSON body of the response, and the store after the request. */
module Http {
  import opened Util
  import opened Schema
  import opened Validation
  import opened Storage

  /** `req.isAuthenticated()` and the id of `req.user`, if there is one. */
  datatype Session = Session(authenticated: bool, userId: Option<int>)

  datatype ResponseBody =
    | Message(message: string)                          // `{ message }`
    | ValidationFailed(issues: seq<Issue>)              // `{ message: zodError.message }`
    | AnalysisResult(semanticAnalysis: string, threatAnalysis: string)
    | AnalysisList(analyses: seq<Analysis>)
    | ContactCreated(success: bool, id: int)            // `{ success, id }`

  datatype Response = Response(status: int, body: ResponseBody)

  /** The store after a request together with the response sent. */
  datatype Handled = Handled(store: MemStorage, response: Response)
}
