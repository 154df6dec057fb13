/** Entities of the signup flow: the rows of the store it reads and writes,
    the validated form, and the store invariant the database keeps. */
module SignupTypes {

  datatype Option<+T> = None | Some(value: T)

  /** JavaScript truthiness of an optional string: absent and "" are both falsy. */
  predicate Truthy(s: Option<string>)
  {
    s.Some? && s.value != ""
  }

  datatype Role = ADMIN | USER

  datatype User = User(id: string, username: string, email: string, name: string, role: Role)

  /** An invite token row; `hashedToken` is the stored fingerprint of the raw token. */
  datatype Token = Token(id: string, hashedToken: string, groupId: Option<string>, createdAt: int, redeemed: bool)

  datatype Membership = Membership(groupId: string, userId: string, active: bool)

  datatype Session = Session(id: string, userId: string)

  /** One issue reported by schema validation: a path into the form and a message. */
  datatype Issue = Issue(path: seq<string>, message: string)

  /** A field-attributed error as returned to the page; `field` is undefined for an empty path. */
  datatype FieldError = FieldError(field: Option<string>, message: string)

  datatype SignupData = SignupData(username: string, password: string, email: string, name: string, tokenId: Option<string>)

  /** The outcome of schema validation of the submitted form. */
  datatype ParseResult = Parsed(data: SignupData) | Invalid(issues: seq<Issue>)

  /** A snapshot of everything the flow can observe or change: the user, token, membership,
      group and session tables, and the session attached to the current request. */
  datatype StoreState = StoreState(
    users: seq<User>,
    tokens: seq<Token>,
    memberships: seq<Membership>,
    groups: set<string>,
    sessions: seq<Session>,
    current: Option<Session>)

  predicate UserIdTaken(users: seq<User>, id: string)
  {
    exists u :: u in users && u.id == id
  }

  predicate TokenIdPresent(tokens: seq<Token>, id: string)
  {
    exists t :: t in tokens && t.id == id
  }

  /** No two accounts share an id, a username or an email. */
  ghost predicate UsersUnique(users: seq<User>)
  {
    forall i, j :: 0 <= i < j < |users| ==>
      users[i].id != users[j].id && users[i].username != users[j].username && users[i].email != users[j].email
  }

  ghost predicate TokenIdsUnique(tokens: seq<Token>)
  {
    forall i, j :: 0 <= i < j < |tokens| ==> tokens[i].id != tokens[j].id
  }

  /** Every membership and every session refers to existing rows, and the request's
      session is a stored one. */
  ghost predicate Linked(s: StoreState)
  {
    && (forall m :: m in s.memberships ==> m.groupId in s.groups && UserIdTaken(s.users, m.userId))
    && (forall x :: x in s.sessions ==> UserIdTaken(s.users, x.userId))
    && (s.current.Some? ==> s.current.value in s.sessions)
  }

  /** The uniqueness and foreign-key constraints the database enforces. */
  ghost predicate Valid(s: StoreState)
  {
    UsersUnique(s.users) && TokenIdsUnique(s.tokens) && Linked(s)
  }
}
