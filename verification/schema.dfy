/** The record shapes shared by server and client: a stored record is its
    insert shape plus an `id` the store assigns (and, for a contact request,
    a `resolved` flag the store sets). No insert shape has an `id`. */
module Schema {
  import opened Util

  /** A user. `username` is declared unique at table level, but nothing in
      the in-memory store enforces it. */
  datatype User = User(
    id: int,
    username: string,
    password: string,
    email: Option<string>,
    orgCode: Option<string>)

  datatype InsertUser = InsertUser(
    username: string,
    password: string,
    email: Option<string>,
    orgCode: Option<string>)

  /** One submitted analysis and the two generated reports (nullable). */
  datatype Analysis = Analysis(
    id: int,
    userId: int,
    targetAccount: string,
    contentType: string,
    content: string,
    semanticAnalysis: Option<string>,
    threatAnalysis: Option<string>,
    createdAt: string)

  datatype InsertAnalysis = InsertAnalysis(
    userId: int,
    targetAccount: string,
    contentType: string,
    content: string,
    semanticAnalysis: Option<string>,
    threatAnalysis: Option<string>,
    createdAt: string)

  /** A contact-form submission; `requestType` is the column `type`. */
  datatype ContactRequest = ContactRequest(
    id: int,
    name: string,
    email: string,
    requestType: string,
    message: string,
    createdAt: string,
    resolved: bool)

  /** The insert shape leaves out both `id` and `resolved`. */
  datatype InsertContactRequest = InsertContactRequest(
    name: string,
    email: string,
    requestType: string,
    message: string,
    createdAt: string)

  // ----- insert shape <-> stored record -----

  function InsertPartOfUser(u: User): InsertUser {
    InsertUser(u.username, u.password, u.email, u.orgCode)
  }

  /** `{ ...insertUser, id }`. */
  function UserWithId(ins: InsertUser, id: int): (u: User)
    ensures u.id == id
    ensures InsertPartOfUser(u) == ins
  {
    User(id, ins.username, ins.password, ins.email, ins.orgCode)
  }

  function InsertPartOfAnalysis(a: Analysis): InsertAnalysis {
    InsertAnalysis(a.userId, a.targetAccount, a.contentType, a.content,
                   a.semanticAnalysis, a.threatAnalysis, a.createdAt)
  }

  /** `{ ...insertAnalysis, id }`. */
  function AnalysisWithId(ins: InsertAnalysis, id: int): (a: Analysis)
    ensures a.id == id
    ensures InsertPartOfAnalysis(a) == ins
  {
    Analysis(id, ins.userId, ins.targetAccount, ins.contentType, ins.content,
             ins.semanticAnalysis, ins.threatAnalysis, ins.createdAt)
  }

  function InsertPartOfContactRequest(c: ContactRequest): InsertContactRequest {
    InsertContactRequest(c.name, c.email, c.requestType, c.message, c.createdAt)
  }

  /** `{ ...insertContactRequest, id, resolved: false }`. */
  function ContactRequestWithId(ins: InsertContactRequest, id: int): (c: ContactRequest)
    ensures c.id == id
    ensures !c.resolved
    ensures InsertPartOfContactRequest(c) == ins
  {
    ContactRequest(id, ins.name, ins.email, ins.requestType, ins.message, ins.createdAt, false)
  }

  /** A stored record is exactly its insert part plus its id (and flag). */
  lemma RecordsAreInsertPlusId(u: User, a: Analysis, c: ContactRequest)
    ensures UserWithId(InsertPartOfUser(u), u.id) == u
    ensures AnalysisWithId(InsertPartOfAnalysis(a), a.id) == a
    ensures ContactRequestWithId(InsertPartOfContactRequest(c), c.id) == c.(resolved := false)
  {
  }
}
