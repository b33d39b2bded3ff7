/**
  The persistent store as in-memory tables, each a map from the table's unique key
  to the rest of the row. Generated row ids are supplied by the caller.
 */
module Store {
  import opened Wrappers
  import opened Json

  /** `user`, keyed by `whopUserId`. */
  datatype UserRow = UserRow(id: string, email: Option<string>, name: Option<string>)

  /** `workspace`, keyed by `whopBusinessId`. */
  datatype WorkspaceRow = WorkspaceRow(id: string, name: Option<string>)

  /** The composite unique key of `membership`: `userId_workspaceId_productId`. */
  datatype MembershipKey = MembershipKey(userId: string, workspaceId: string, productId: string)

  datatype MembershipRow = MembershipRow(status: string, whopMembershipId: Option<string>)

  /** `session`, keyed by `tokenHash`; it holds no raw token. */
  datatype SessionRow = SessionRow(
    userId: string,
    workspaceId: string,
    expiresAt: int,
    whopAccessToken: Option<string>,
    whopAccessTokenExpiresAt: Option<int>)

  /** `company`, keyed by `companyId`. */
  datatype CompanyRow = CompanyRow(id: string, name: Option<string>)

  /** `failedPayment`, keyed by `id`. The request fields are kept as the JSON values
      they arrived as. */
  datatype PaymentRow = PaymentRow(
    companyId: string,
    customerName: JsValue,
    customerEmail: JsValue,
    productName: JsValue,
    amount: JsValue,
    currency: JsValue,
    reason: JsValue,
    status: JsValue)

  /** The tables the sign-in flow reads and writes. */
  datatype AuthTables = AuthTables(
    users: map<string, UserRow>,
    workspaces: map<string, WorkspaceRow>,
    memberships: map<MembershipKey, MembershipRow>,
    sessions: map<string, SessionRow>)

  /** The database, with the one-way hash used for session tokens. */
  class Db {
    const hash: string -> string
    var users: map<string, UserRow>
    var workspaces: map<string, WorkspaceRow>
    var memberships: map<MembershipKey, MembershipRow>
    var sessions: map<string, SessionRow>
    var companies: map<string, CompanyRow>
    var payments: map<string, PaymentRow>

    constructor (hash: string -> string)
      ensures this.hash == hash
      ensures users == map[] && workspaces == map[] && memberships == map[] && sessions == map[]
      ensures companies == map[] && payments == map[]
    {
      this.hash := hash;
      users, workspaces, memberships, sessions := map[], map[], map[], map[];
      companies, payments := map[], map[];
    }

    function Auth(): AuthTables
      reads this
    {
      AuthTables(users, workspaces, memberships, sessions)
    }
  }
}
