/** What the signup action promises, stated over its reference function SignupOutcome:
    which effects happen on each path, that nothing else changes, and that the store's
    constraints survive. */
module SignupProperties {
  import opened SignupTypes
  import opened SignupLoad
  import opened SignupAction

  /** A form that fails validation is answered with one error per issue and changes nothing. */
  lemma InvalidFormChangesNothing(s: StoreState, issues: seq<Issue>, userId: string, sessionId: string)
    ensures var (s', r) := SignupOutcome(s, Invalid(issues), userId, sessionId);
            && s' == s
            && r.Fail? && r.status == 400 && |r.errors| == |issues|
            && forall i :: 0 <= i < |issues| ==>
                 r.errors[i].message == issues[i].message
                 && (issues[i].path != [] ==> r.errors[i].field == Some(issues[i].path[0]))
                 && (issues[i].path == [] ==> r.errors[i].field == None)
  {
  }

  /** When account creation is refused nothing is written: no user, no session, no
      membership, no redemption; the answer is the single username error. */
  lemma DuplicateChangesNothing(s: StoreState, data: SignupData, userId: string, sessionId: string)
    requires exists u :: u in s.users && (u.username == data.username || u.email == data.email || u.id == userId)
    ensures SignupOutcome(s, Parsed(data), userId, sessionId) == (s, DuplicateFailure)
  {
  }

  /** A group read that yields a group means a token with that id exists. */
  lemma GroupReadImpliesToken(tokens: seq<Token>, id: string)
    ensures Truthy(GroupOf(tokens, id)) ==> TokenIdPresent(tokens, id)
  {
  }

  /** A valid form either creates the account, with role ADMIN exactly when the count of
      users read before was zero, or leaves the store as it was. Once the account exists,
      it and its session are kept whatever fails later, and a later failure gives the same
      username error without having touched the memberships or the tokens. */
  lemma AccountAndSessionKept(s: StoreState, data: SignupData, userId: string, sessionId: string)
    ensures var (s', r) := SignupOutcome(s, Parsed(data), userId, sessionId);
            var created := !exists u :: u in s.users && (u.username == data.username || u.email == data.email || u.id == userId);
            && (r == Done || r == DuplicateFailure)
            && (!created ==> s' == s)
            && (created ==>
                  && s'.users == s.users + [User(userId, data.username, data.email, data.name, if |s.users| == 0 then ADMIN else USER)]
                  && s'.sessions == s.sessions + [Session(sessionId, userId)]
                  && s'.current == Some(Session(sessionId, userId))
                  && s'.groups == s.groups
                  && (r != Done ==> s'.memberships == s.memberships && s'.tokens == s.tokens))
  {
    if Truthy(data.tokenId) {
      GroupReadImpliesToken(s.tokens, data.tokenId.value);
    }
  }

  /** The action succeeds exactly when the account can be created, the token's group (if any)
      exists and the given token id (if any) exists. The token's expiry and its prior
      `redeemed` state are not consulted. On success the membership is added exactly when
      the token carries a group, and the token table is the redemption of `tokenId`. */
  lemma SuccessEffects(s: StoreState, data: SignupData, userId: string, sessionId: string)
    ensures var (s', r) := SignupOutcome(s, Parsed(data), userId, sessionId);
            var groupId := if Truthy(data.tokenId) then GroupOf(s.tokens, data.tokenId.value) else None;
            && (r == Done <==>
                  && !(exists u :: u in s.users && (u.username == data.username || u.email == data.email || u.id == userId))
                  && (Truthy(groupId) ==> groupId.value in s.groups)
                  && (Truthy(data.tokenId) ==> TokenIdPresent(s.tokens, data.tokenId.value)))
            && (r == Done ==>
                  && s'.memberships == s.memberships + (if Truthy(groupId) then [Membership(groupId.value, userId, true)] else [])
                  && s'.tokens == if Truthy(data.tokenId) then MarkRedeemed(s.tokens, data.tokenId.value) else s.tokens)
  {
    if Truthy(data.tokenId) {
      GroupReadImpliesToken(s.tokens, data.tokenId.value);
    }
  }

  /** With token ids unique, the group read by the action is the group of that one token. */
  lemma GroupOfUnique(tokens: seq<Token>, k: int)
    requires TokenIdsUnique(tokens)
    requires 0 <= k < |tokens|
    ensures GroupOf(tokens, tokens[k].id) == tokens[k].groupId
  {
    var found := FindById(tokens, tokens[k].id);
    assert TokenIdPresent(tokens, tokens[k].id) by {
      assert tokens[k] in tokens;
    }
    var j :| 0 <= j < |tokens| && tokens[j] == found.value;
    assert j == k;
  }

  /** Only the token table's rows change through redemption, and only in `redeemed`: a row is
      redeemed afterwards iff it was before, or the action succeeded and the row's id is the
      submitted `tokenId`. Rows never go back from redeemed to unredeemed. */
  lemma TokensOnlyGainRedemption(s: StoreState, form: ParseResult, userId: string, sessionId: string)
    ensures var (s', r) := SignupOutcome(s, form, userId, sessionId);
            && |s'.tokens| == |s.tokens|
            && forall i :: 0 <= i < |s.tokens| ==>
                 && s'.tokens[i].id == s.tokens[i].id
                 && s'.tokens[i].hashedToken == s.tokens[i].hashedToken
                 && s'.tokens[i].groupId == s.tokens[i].groupId
                 && s'.tokens[i].createdAt == s.tokens[i].createdAt
                 && (s'.tokens[i].redeemed <==>
                       s.tokens[i].redeemed
                       || (r == Done && form.Parsed? && Truthy(form.data.tokenId) && s.tokens[i].id == form.data.tokenId.value))
  {
    if form.Parsed? {
      SuccessEffects(s, form.data, userId, sessionId);
      AccountAndSessionKept(s, form.data, userId, sessionId);
    }
  }

  /** With token ids unique, a successful action with a `tokenId` redeems exactly the one row
      carrying it and leaves every other row as it was. */
  lemma RedeemsExactlyThatToken(s: StoreState, data: SignupData, userId: string, sessionId: string, k: int)
    requires TokenIdsUnique(s.tokens)
    requires 0 <= k < |s.tokens| && s.tokens[k].id != "" && data.tokenId == Some(s.tokens[k].id)
    ensures var (s', r) := SignupOutcome(s, Parsed(data), userId, sessionId);
            r == Done ==> s'.tokens == s.tokens[k := s.tokens[k].(redeemed := true)]
  {
    var (s', r) := SignupOutcome(s, Parsed(data), userId, sessionId);
    if r == Done {
      TokensOnlyGainRedemption(s, Parsed(data), userId, sessionId);
      var expected := s.tokens[k := s.tokens[k].(redeemed := true)];
      assert |s'.tokens| == |expected|;
      forall i | 0 <= i < |s.tokens| ensures s'.tokens[i] == expected[i] {
        if i != k {
          assert s.tokens[i].id != s.tokens[k].id;
        }
      }
    }
  }

  /** Two token tables that agree on every row's id and group. */
  ghost predicate SameIdsAndGroups(a: seq<Token>, b: seq<Token>)
  {
    |a| == |b| && forall i :: 0 <= i < |a| ==> a[i].id == b[i].id && a[i].groupId == b[i].groupId
  }

  lemma {:induction false} FindByIdSameIds(a: seq<Token>, b: seq<Token>, id: string)
    requires SameIdsAndGroups(a, b)
    ensures FindById(a, id).Some? == FindById(b, id).Some?
    ensures FindById(a, id).Some? ==> FindById(a, id).value.groupId == FindById(b, id).value.groupId
  {
    if |a| > 0 && a[0].id != id {
      assert SameIdsAndGroups(a[1..], b[1..]) by {
        forall i | 0 <= i < |a| - 1 ensures a[1..][i].id == b[1..][i].id && a[1..][i].groupId == b[1..][i].groupId {
          assert a[1..][i] == a[i + 1] && b[1..][i] == b[i + 1];
        }
      }
      FindByIdSameIds(a[1..], b[1..], id);
    }
  }

  /** The action's answer does not depend on the tokens' fingerprints, creation times or
      `redeemed` flags: it does not re-check that the invite is still usable. */
  lemma AnswerIgnoresTokenState(s: StoreState, tokens: seq<Token>, form: ParseResult, userId: string, sessionId: string)
    requires SameIdsAndGroups(s.tokens, tokens)
    ensures SignupOutcome(s, form, userId, sessionId).1 == SignupOutcome(s.(tokens := tokens), form, userId, sessionId).1
  {
    if form.Parsed? && Truthy(form.data.tokenId) {
      var id := form.data.tokenId.value;
      FindByIdSameIds(s.tokens, tokens, id);
      assert TokenIdPresent(s.tokens, id) == TokenIdPresent(tokens, id);
    }
  }

  /** An account that conflicts with no existing one keeps the accounts unique. */
  lemma AddUserKeepsUnique(users: seq<User>, user: User)
    requires UsersUnique(users) && !Conflicts(users, user)
    ensures UsersUnique(users + [user])
  {
    var users' := users + [user];
    forall i, j | 0 <= i < j < |users'|
      ensures users'[i].id != users'[j].id && users'[i].username != users'[j].username && users'[i].email != users'[j].email
    {
      if j == |users| {
        assert users[i] in users;
      }
    }
  }

  /** Adding an account, a session of it, and possibly a membership of it in an existing group
      keeps every reference valid. */
  lemma AddAccountKeepsLinked(s: StoreState, s': StoreState, user: User, session: Session)
    requires Linked(s)
    requires s'.users == s.users + [user] && s'.groups == s.groups
    requires s'.sessions == s.sessions + [session] && session.userId == user.id && s'.current == Some(session)
    requires forall m :: m in s'.memberships ==> m in s.memberships || (m.userId == user.id && m.groupId in s.groups)
    ensures Linked(s')
  {
    assert UserIdTaken(s'.users, user.id) by {
      assert user in s'.users;
    }
    forall id | UserIdTaken(s.users, id) ensures UserIdTaken(s'.users, id) {
      var u :| u in s.users && u.id == id;
      assert u in s'.users;
    }
  }

  /** Redemption changes no token id, so it keeps them unique. */
  lemma MarkRedeemedKeepsIdsUnique(tokens: seq<Token>, id: string)
    requires TokenIdsUnique(tokens)
    ensures TokenIdsUnique(MarkRedeemed(tokens, id))
  {
  }

  /** The steps after the session is attached add at most one membership, of `userId` in an
      existing group, and change the tokens at most by one redemption. */
  lemma LinkOutcomeShape(s: StoreState, tokenId: Option<string>, groupId: Option<string>, userId: string)
    ensures var s2 := LinkOutcome(s, tokenId, groupId, userId).0;
            && s2.users == s.users && s2.sessions == s.sessions && s2.current == s.current && s2.groups == s.groups
            && (forall m :: m in s2.memberships ==> m in s.memberships || (m.userId == userId && m.groupId in s.groups))
            && (s2.tokens == s.tokens || (tokenId.Some? && s2.tokens == MarkRedeemed(s.tokens, tokenId.value)))
  {
  }

  /** The action keeps the store's uniqueness and foreign-key constraints. */
  lemma SignupPreservesValid(s: StoreState, form: ParseResult, userId: string, sessionId: string)
    requires Valid(s)
    ensures Valid(SignupOutcome(s, form, userId, sessionId).0)
  {
    if form.Parsed? {
      var data := form.data;
      var user := NewUser(data, userId, |s.users|);
      if !Conflicts(s.users, user) {
        var groupId := if Truthy(data.tokenId) then GroupOf(s.tokens, data.tokenId.value) else None;
        var session := Session(sessionId, userId);
        var s1 := s.(users := s.users + [user], sessions := s.sessions + [session], current := Some(session));
        var s2 := LinkOutcome(s1, data.tokenId, groupId, userId).0;
        assert s2 == SignupOutcome(s, form, userId, sessionId).0;
        LinkOutcomeShape(s1, data.tokenId, groupId, userId);
        AddUserKeepsUnique(s.users, user);
        AddAccountKeepsLinked(s, s2, user, session);
        if data.tokenId.Some? {
          MarkRedeemedKeepsIdsUnique(s.tokens, data.tokenId.value);
        }
      }
    }
  }

  /** On a store without users, the first successful signup creates an ADMIN and the
      next successful one a USER. */
  lemma FirstAccountIsAdmin(s: StoreState, first: SignupData, second: SignupData,
                            id1: string, id2: string, session1: string, session2: string)
    requires s.users == []
    ensures var (s1, r1) := SignupOutcome(s, Parsed(first), id1, session1);
            var (s2, r2) := SignupOutcome(s1, Parsed(second), id2, session2);
            && (r1 == Done ==> s1.users == [User(id1, first.username, first.email, first.name, ADMIN)])
            && (r1 == Done && r2 == Done ==> |s2.users| == 2 && s2.users[1].role == USER)
  {
    AccountAndSessionKept(s, first, id1, session1);
    var (s1, r1) := SignupOutcome(s, Parsed(first), id1, session1);
    AccountAndSessionKept(s1, second, id2, session2);
  }

  /** A valid form posting back the id of an existing token bound to an existing group, on a
      store without users, creates an ADMIN, attaches the session, adds the active membership
      and redeems that one token. */
  lemma InvitedSignupEffects(s: StoreState, k: nat, data: SignupData, userId: string, sessionId: string)
    requires s.users == [] && TokenIdsUnique(s.tokens)
    requires k < |s.tokens| && Truthy(s.tokens[k].groupId) && s.tokens[k].groupId.value in s.groups
    requires data.tokenId == Some(s.tokens[k].id) && s.tokens[k].id != ""
    ensures var (s', r) := SignupOutcome(s, Parsed(data), userId, sessionId);
            && r == Done
            && s'.users == [User(userId, data.username, data.email, data.name, ADMIN)]
            && s'.current == Some(Session(sessionId, userId))
            && s'.memberships == s.memberships + [Membership(s.tokens[k].groupId.value, userId, true)]
            && s'.tokens == s.tokens[k := s.tokens[k].(redeemed := true)]
  {
    GroupOfUnique(s.tokens, k);
    assert TokenIdPresent(s.tokens, s.tokens[k].id) by {
      assert s.tokens[k] in s.tokens;
    }
    SuccessEffects(s, data, userId, sessionId);
    AccountAndSessionKept(s, data, userId, sessionId);
    RedeemsExactlyThatToken(s, data, userId, sessionId, k);
  }

  /** End to end: an unexpired, unredeemed invite bound to an existing group, presented on a
      store without users, is accepted by the page load, and the form posting back its id
      then has all the effects of InvitedSignupEffects. */
  lemma InvitedFirstSignup(s: StoreState, hash: string -> string, raw: string, k: nat, now: int, ttl: Option<int>,
                           data: SignupData, userId: string, sessionId: string)
    requires s.users == [] && TokenIdsUnique(s.tokens)
    requires raw != "" && IsFirstActive(s.tokens, hash(raw), k) && now < Expiry(s.tokens[k].createdAt, ttl)
    requires Truthy(s.tokens[k].groupId) && s.tokens[k].groupId.value in s.groups
    requires data.tokenId == Some(Load(s.tokens, hash, false, Some(raw), ttl, now, false).id) && s.tokens[k].id != ""
    ensures Load(s.tokens, hash, false, Some(raw), ttl, now, false) == TokenValid(s.tokens[k].id)
    ensures var (s', r) := SignupOutcome(s, Parsed(data), userId, sessionId);
            && r == Done
            && s'.users == [User(userId, data.username, data.email, data.name, ADMIN)]
            && s'.current == Some(Session(sessionId, userId))
            && s'.memberships == s.memberships + [Membership(s.tokens[k].groupId.value, userId, true)]
            && s'.tokens == s.tokens[k := s.tokens[k].(redeemed := true)]
  {
    LoadAcceptsUsableToken(s.tokens, hash, raw, k, ttl, now, false);
    InvitedSignupEffects(s, k, data, userId, sessionId);
  }

  /** The action is not gated by the page load: it reads no open-signup flag and needs no
      invite. A valid form without `tokenId`, posted to a store without users, creates an
      ADMIN account and attaches its session. */
  lemma NoInviteStillCreatesAccount(s: StoreState, data: SignupData, userId: string, sessionId: string)
    requires s.users == [] && !Truthy(data.tokenId)
    ensures var (s', r) := SignupOutcome(s, Parsed(data), userId, sessionId);
            && r == Done
            && s'.users == [User(userId, data.username, data.email, data.name, ADMIN)]
            && s'.current == Some(Session(sessionId, userId))
            && s'.memberships == s.memberships && s'.tokens == s.tokens
  {
    AccountAndSessionKept(s, data, userId, sessionId);
    SuccessEffects(s, data, userId, sessionId);
  }

  /** The id of a token that is already redeemed is still accepted by the action: its group
      membership is added again for the new account, and the token table stays as it was. */
  lemma RedeemedTokenReused(s: StoreState, k: nat, data: SignupData, userId: string, sessionId: string)
    requires TokenIdsUnique(s.tokens) && k < |s.tokens| && s.tokens[k].redeemed
    requires Truthy(s.tokens[k].groupId) && s.tokens[k].groupId.value in s.groups
    requires data.tokenId == Some(s.tokens[k].id) && s.tokens[k].id != ""
    requires !exists u :: u in s.users && (u.username == data.username || u.email == data.email || u.id == userId)
    ensures var (s', r) := SignupOutcome(s, Parsed(data), userId, sessionId);
            && r == Done
            && s'.memberships == s.memberships + [Membership(s.tokens[k].groupId.value, userId, true)]
            && s'.tokens == s.tokens
  {
    GroupOfUnique(s.tokens, k);
    assert TokenIdPresent(s.tokens, s.tokens[k].id) by {
      assert s.tokens[k] in s.tokens;
    }
    SuccessEffects(s, data, userId, sessionId);
    RedeemsExactlyThatToken(s, data, userId, sessionId, k);
    assert s.tokens[k].(redeemed := true) == s.tokens[k];
    assert s.tokens[k := s.tokens[k]] == s.tokens;
  }
}
