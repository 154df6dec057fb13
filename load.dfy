/** The page load of the signup route: a read-only decision over the token table,
    the current time, the configured token lifetime and the open-signup flag. */
module SignupLoad {
  import opened SignupTypes

  const MsPerHour := 3600000
  /** The token lifetime, in hours, when TOKEN_TIME is not configured. */
  const DefaultTtlHours := 72

  const NotFoundMessage := "reset token not found"
  const InvalidMessage := "Invite code is either invalid or already been used"
  const InviteOnlyMessage := "This instance is invite only"

  /** What `load` produces: a thrown redirect, a thrown HTTP error, the page data
      `{valid: true, id}` for an accepted invite, or no data for open signup. */
  datatype LoadOutcome =
    | Redirect(status: int, location: string)
    | HttpError(status: int, message: string)
    | TokenValid(id: string)
    | SignupOpen

  /** The lookup filter: the stored fingerprint equals `h` and the token is not redeemed. */
  predicate Matches(t: Token, h: string)
  {
    t.hashedToken == h && !t.redeemed
  }

  /** Index `i` holds the first token in table order that passes the lookup filter. */
  ghost predicate IsFirstActive(tokens: seq<Token>, h: string, i: int)
  {
    && 0 <= i < |tokens|
    && Matches(tokens[i], h)
    && forall j :: 0 <= j < i ==> !Matches(tokens[j], h)
  }

  lemma FirstActiveUnique(tokens: seq<Token>, h: string, i: int, j: int)
    requires IsFirstActive(tokens, h, i) && IsFirstActive(tokens, h, j)
    ensures i == j
  {
  }

  /** The first unredeemed token whose fingerprint is `h`, if any. */
  function FindActive(tokens: seq<Token>, h: string): (r: Option<Token>)
    ensures r.None? <==> forall i :: 0 <= i < |tokens| ==> !Matches(tokens[i], h)
    ensures r.Some? ==> exists i :: IsFirstActive(tokens, h, i) && tokens[i] == r.value
  {
    if |tokens| == 0 then None
    else if Matches(tokens[0], h) then
      assert IsFirstActive(tokens, h, 0);
      Some(tokens[0])
    else
      var r := FindActive(tokens[1..], h);
      assert forall i :: 0 < i < |tokens| ==> tokens[i] == tokens[1..][i - 1];
      assert r.Some? ==> exists i :: IsFirstActive(tokens, h, i) && tokens[i] == r.value by {
        if r.Some? {
          var k :| IsFirstActive(tokens[1..], h, k) && tokens[1..][k] == r.value;
          assert IsFirstActive(tokens, h, k + 1);
        }
      }
      r
  }

  /** The token lifetime in hours: TOKEN_TIME when set, otherwise the default. */
  function TtlHours(ttl: Option<int>): (r: int)
    ensures ttl.None? ==> r == DefaultTtlHours
    ensures ttl.Some? ==> r == ttl.value
  {
    match ttl
    case None => DefaultTtlHours
    case Some(hours) => hours
  }

  /** The instant, in milliseconds, from which a token created at `createdAt` is no longer accepted. */
  function Expiry(createdAt: int, ttl: Option<int>): (r: int)
    ensures r > createdAt <==> TtlHours(ttl) > 0
    ensures ttl.None? ==> r == createdAt + 259200000
  {
    createdAt + TtlHours(ttl) * MsPerHour
  }

  /** The signup page load. `hasSession`: the visitor's session validated; `token`: the
      `token` query parameter; `hash`: the token fingerprint function; `ttl`: TOKEN_TIME. */
  function Load(tokens: seq<Token>, hash: string -> string, hasSession: bool, token: Option<string>,
                ttl: Option<int>, now: int, enableSignup: bool): (r: LoadOutcome)
    ensures hasSession ==> r == Redirect(302, "/")
    ensures !hasSession && !Truthy(token) ==>
              r == if enableSignup then SignupOpen else HttpError(404, InviteOnlyMessage)
    ensures !hasSession && Truthy(token) ==>
              var h := hash(token.value);
              && (r == HttpError(400, NotFoundMessage) || r == HttpError(400, InvalidMessage) || r.TokenValid?)
              && (r == HttpError(400, NotFoundMessage) <==> forall i :: 0 <= i < |tokens| ==> !Matches(tokens[i], h))
              && (r == HttpError(400, InvalidMessage) <==>
                    exists i :: IsFirstActive(tokens, h, i) && now >= Expiry(tokens[i].createdAt, ttl))
              && (r.TokenValid? <==>
                    exists i :: IsFirstActive(tokens, h, i) && now < Expiry(tokens[i].createdAt, ttl))
              && (r.TokenValid? ==> exists i :: IsFirstActive(tokens, h, i) && r.id == tokens[i].id)
  {
    if hasSession then Redirect(302, "/")
    else if Truthy(token) then
      var found := FindActive(tokens, hash(token.value));
      if found.None? then HttpError(400, NotFoundMessage)
      else
        var h := hash(token.value);
        assert forall i :: IsFirstActive(tokens, h, i) ==> tokens[i] == found.value by {
          var k :| IsFirstActive(tokens, h, k) && tokens[k] == found.value;
          forall i | IsFirstActive(tokens, h, i) ensures tokens[i] == found.value {
            FirstActiveUnique(tokens, h, i, k);
          }
        }
        if now < Expiry(found.value.createdAt, ttl) then TokenValid(found.value.id)
        else HttpError(400, InvalidMessage)
    else if !enableSignup then HttpError(404, InviteOnlyMessage)
    else SignupOpen
  }

  /** With a token present, the open-signup flag plays no part in the outcome. */
  lemma LoadIgnoresConfigWithToken(tokens: seq<Token>, hash: string -> string, hasSession: bool,
                                   token: Option<string>, ttl: Option<int>, now: int)
    requires Truthy(token)
    ensures Load(tokens, hash, hasSession, token, ttl, now, true) == Load(tokens, hash, hasSession, token, ttl, now, false)
  {
  }

  /** The first unredeemed token with the presented fingerprint, presented before its expiry,
      is accepted whatever the open-signup flag says. */
  lemma LoadAcceptsUsableToken(tokens: seq<Token>, hash: string -> string, raw: string, k: nat,
                               ttl: Option<int>, now: int, enableSignup: bool)
    requires raw != "" && IsFirstActive(tokens, hash(raw), k) && now < Expiry(tokens[k].createdAt, ttl)
    ensures Load(tokens, hash, false, Some(raw), ttl, now, enableSignup) == TokenValid(tokens[k].id)
  {
    FirstActiveUnique(tokens, hash(raw), k, k);
  }

  /** A token that is still unredeemed is accepted at the instant it was created under the default lifetime. */
  lemma LoadAcceptsFreshToken(tokens: seq<Token>, hash: string -> string, raw: string, i: nat)
    requires raw != "" && IsFirstActive(tokens, hash(raw), i)
    ensures Load(tokens, hash, false, Some(raw), None, tokens[i].createdAt, false) == TokenValid(tokens[i].id)
  {
    FirstActiveUnique(tokens, hash(raw), i, i);
  }

  /** With a 72-hour lifetime a token presented 73 hours after creation is refused as invalid. */
  lemma LoadRejectsAfter73Hours(tokens: seq<Token>, hash: string -> string, raw: string, i: nat, enableSignup: bool)
    requires raw != "" && IsFirstActive(tokens, hash(raw), i)
    ensures Load(tokens, hash, false, Some(raw), Some(72), tokens[i].createdAt + 73 * MsPerHour, enableSignup)
            == HttpError(400, InvalidMessage)
  {
  }
}
