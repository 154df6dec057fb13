/** The signup form action: validation, role choice, and the ordered effects on the
    store (user, session, request session, group membership, token redemption), with
    one catch-all error for any failing step and no roll-back of earlier effects. */
module SignupAction {
  import opened SignupTypes

  const DuplicateMessage := "User with username or email already exists"

  /** The action's response: `fail(400, {error: true, errors})`, or no data on success. */
  datatype ActionResult = Fail(status: int, errors: seq<FieldError>) | Done

  /** The single error every failure inside the action's `try` block turns into. */
  const DuplicateFailure := Fail(400, [FieldError(Some("username"), DuplicateMessage)])

  /** `path[0]` of an issue path: undefined when the path is empty. */
  function FirstSegment(path: seq<string>): Option<string>
  {
    if |path| == 0 then None else Some(path[0])
  }

  /** The validation issues turned into field-attributed errors, one per issue, in order. */
  function IssueErrors(issues: seq<Issue>): (r: seq<FieldError>)
    ensures |r| == |issues|
    ensures forall i :: 0 <= i < |issues| ==>
              && r[i].message == issues[i].message
              && (r[i].field.Some? <==> issues[i].path != [])
              && (r[i].field.Some? ==> r[i].field.value == issues[i].path[0])
  {
    if |issues| == 0 then []
    else
      [FieldError(FirstSegment(issues[0].path), issues[0].message)] + IssueErrors(issues[1..])
  }

  /** The role of a new account, given the number of users counted before it is created. */
  function RoleFor(userCount: nat): (r: Role)
    ensures r == ADMIN <==> userCount == 0
  {
    if userCount > 0 then USER else ADMIN
  }

  function NewUser(data: SignupData, userId: string, userCount: nat): User
  {
    User(userId, data.username, data.email, data.name, RoleFor(userCount))
  }

  /** Account creation is refused: the username, the email or the generated id is already in use. */
  predicate Conflicts(users: seq<User>, user: User)
  {
    exists u :: u in users && (u.username == user.username || u.email == user.email || u.id == user.id)
  }

  /** Lookup of the token row with id `id`. */
  function FindById(tokens: seq<Token>, id: string): (r: Option<Token>)
    ensures r.None? <==> !TokenIdPresent(tokens, id)
    ensures r.Some? ==> r.value in tokens && r.value.id == id
  {
    if |tokens| == 0 then None
    else if tokens[0].id == id then Some(tokens[0])
    else
      var r := FindById(tokens[1..], id);
      assert TokenIdPresent(tokens, id) ==> TokenIdPresent(tokens[1..], id) by {
        if TokenIdPresent(tokens, id) {
          var t :| t in tokens && t.id == id;
          assert t in tokens[1..];
        }
      }
      r
  }

  /** `findUnique(...).then(data => data?.groupId)`: the group of the token, if the token exists. */
  function GroupOf(tokens: seq<Token>, id: string): (r: Option<string>)
    ensures !TokenIdPresent(tokens, id) ==> r == None
    ensures TokenIdPresent(tokens, id) ==> exists t :: t in tokens && t.id == id && t.groupId == r
  {
    match FindById(tokens, id)
    case None => None
    case Some(t) => t.groupId
  }

  /** The token table after `redeemed` is set on the rows whose id is `id`. */
  function MarkRedeemed(tokens: seq<Token>, id: string): (r: seq<Token>)
    ensures |r| == |tokens|
    ensures forall i :: 0 <= i < |tokens| ==>
              && r[i].id == tokens[i].id && r[i].hashedToken == tokens[i].hashedToken
              && r[i].groupId == tokens[i].groupId && r[i].createdAt == tokens[i].createdAt
              && r[i].redeemed == (tokens[i].redeemed || tokens[i].id == id)
  {
    if |tokens| == 0 then []
    else
      var head := if tokens[0].id == id then tokens[0].(redeemed := true) else tokens[0];
      [head] + MarkRedeemed(tokens[1..], id)
  }

  /** The whole action as a function of the store before it: the new store and the response.
      `userId` and `sessionId` are the identifiers the auth library generates. */
  function SignupOutcome(s: StoreState, form: ParseResult, userId: string, sessionId: string): (r: (StoreState, ActionResult))
    ensures r.1 == Done || (r.1.Fail? && r.1.status == 400)
    ensures form.Invalid? ==> r.0 == s
    ensures r.0.groups == s.groups
  {
    match form
    case Invalid(issues) => (s, Fail(400, IssueErrors(issues)))
    case Parsed(data) =>
      var groupId := if Truthy(data.tokenId) then GroupOf(s.tokens, data.tokenId.value) else None;
      RegisterOutcome(s, data, groupId, userId, sessionId)
  }

  /** The `try` block: account creation, then the session, then the remaining effects. */
  function RegisterOutcome(s: StoreState, data: SignupData, groupId: Option<string>, userId: string, sessionId: string)
    : (r: (StoreState, ActionResult))
    ensures r.1 == Done || r.1 == DuplicateFailure
    ensures Conflicts(s.users, NewUser(data, userId, |s.users|)) ==> r.0 == s
    ensures !Conflicts(s.users, NewUser(data, userId, |s.users|)) ==>
              && r.0.users == s.users + [NewUser(data, userId, |s.users|)]
              && r.0.sessions == s.sessions + [Session(sessionId, userId)]
              && r.0.current == Some(Session(sessionId, userId))
  {
    var user := NewUser(data, userId, |s.users|);
    if Conflicts(s.users, user) then (s, DuplicateFailure)
    else
      var session := Session(sessionId, userId);
      LinkOutcome(s.(users := s.users + [user], sessions := s.sessions + [session], current := Some(session)),
           data.tokenId, groupId, userId)
  }

  /** The effects after the session is attached: the group membership, then the redemption. */
  function LinkOutcome(s: StoreState, tokenId: Option<string>, groupId: Option<string>, userId: string): (r: (StoreState, ActionResult))
    ensures r.1 == Done || r.1 == DuplicateFailure
    ensures r.0.users == s.users && r.0.sessions == s.sessions && r.0.current == s.current && r.0.groups == s.groups
    ensures r.1 == DuplicateFailure ==> r.0.tokens == s.tokens
  {
    if Truthy(groupId) && groupId.value !in s.groups then (s, DuplicateFailure)
    else
      var s2 := if Truthy(groupId) then s.(memberships := s.memberships + [Membership(groupId.value, userId, true)]) else s;
      if !Truthy(tokenId) then (s2, Done)
      else if !TokenIdPresent(s2.tokens, tokenId.value) then (s2, DuplicateFailure)
      else (s2.(tokens := MarkRedeemed(s2.tokens, tokenId.value)), Done)
  }

  /** The database and the request's `locals`, updated in place by the action. */
  class Store {
    var users: seq<User>
    var tokens: seq<Token>
    var memberships: seq<Membership>
    var groups: set<string>
    var sessions: seq<Session>
    /** The session attached to the current request by `locals.setSession`. */
    var current: Option<Session>

    function State(): StoreState
      reads this
    {
      StoreState(users, tokens, memberships, groups, sessions, current)
    }

    constructor (init: StoreState)
      ensures State() == init
    {
      users, tokens, memberships := init.users, init.tokens, init.memberships;
      groups, sessions, current := init.groups, init.sessions, init.current;
    }

    /** `client.user.count()`. */
    method CountUsers() returns (n: nat)
      ensures n == |users|
    {
      n := |users|;
    }

    /** The group of the token with id `id`, or none when there is no such token. */
    method ReadTokenGroup(id: string) returns (g: Option<string>)
      ensures g == GroupOf(tokens, id)
    {
      g := GroupOf(tokens, id);
    }

    /** `auth.createUser`: adds the account unless its username, email or id is taken. */
    method CreateUser(user: User) returns (ok: bool)
      modifies this`users
      ensures ok == !Conflicts(old(users), user)
      ensures users == if ok then old(users) + [user] else old(users)
    {
      ok := !Conflicts(users, user);
      if ok {
        users := users + [user];
      }
    }

    /** `auth.createSession`: stores a new session for the account. */
    method CreateSession(userId: string, sessionId: string) returns (session: Session)
      modifies this`sessions
      ensures session == Session(sessionId, userId)
      ensures sessions == old(sessions) + [session]
    {
      session := Session(sessionId, userId);
      sessions := sessions + [session];
    }

    /** `locals.setSession`. */
    method SetSession(session: Session)
      modifies this`current
      ensures current == Some(session)
    {
      current := Some(session);
    }

    /** `client.userGroupMembership.create`: refused when the group does not exist. */
    method CreateMembership(groupId: string, userId: string) returns (ok: bool)
      modifies this`memberships
      ensures ok == (groupId in groups)
      ensures memberships == if ok then old(memberships) + [Membership(groupId, userId, true)] else old(memberships)
    {
      ok := groupId in groups;
      if ok {
        memberships := memberships + [Membership(groupId, userId, true)];
      }
    }

    /** `client.signupToken.update`: sets `redeemed`; refused when no token has that id. */
    method RedeemToken(id: string) returns (ok: bool)
      modifies this`tokens
      ensures ok == TokenIdPresent(old(tokens), id)
      ensures tokens == if ok then MarkRedeemed(old(tokens), id) else old(tokens)
    {
      ok := TokenIdPresent(tokens, id);
      if ok {
        tokens := MarkRedeemed(tokens, id);
      }
    }

    /** The default form action, run on the validated form. */
    method Submit(form: ParseResult, userId: string, sessionId: string) returns (r: ActionResult)
      modifies this
      ensures (State(), r) == SignupOutcome(old(State()), form, userId, sessionId)
    {
      if form.Invalid? {
        return Fail(400, IssueErrors(form.issues));
      }
      var data := form.data;
      var userCount := CountUsers();
      var groupId: Option<string> := None;
      if Truthy(data.tokenId) {
        groupId := ReadTokenGroup(data.tokenId.value);
      }
      r := Register(data, groupId, userId, sessionId, userCount);
    }

    /** Steps inside the `try` block; `userCount` was read before it. */
    method Register(data: SignupData, groupId: Option<string>, userId: string, sessionId: string, userCount: nat)
      returns (r: ActionResult)
      requires userCount == |users|
      modifies this
      ensures (State(), r) == RegisterOutcome(old(State()), data, groupId, userId, sessionId)
    {
      var ok := CreateUser(NewUser(data, userId, userCount));
      if !ok {
        return DuplicateFailure;
      }
      var session := CreateSession(userId, sessionId);
      SetSession(session);
      ghost var s1 := State();
      if Truthy(groupId) {
        ok := CreateMembership(groupId.value, userId);
        if !ok {
          return DuplicateFailure;
        }
      }
      if Truthy(data.tokenId) {
        ok := RedeemToken(data.tokenId.value);
        if !ok {
          return DuplicateFailure;
        }
      }
      assert (State(), Done) == LinkOutcome(s1, data.tokenId, groupId, userId);
      return Done;
    }
  }
}
