/**
 * The collection across many requests. Each request runs to completion
 * before the next one starts; the library and the secrets stay fixed.
 */
module AuthSessions {
  import opened Wrappers
  import opened Jwt
  import opened Users
  import opened AuthSpec
  import opened AuthProperties

  /** A request that reaches the helpers, with the clock and database outcome it meets. */
  datatype Request =
    | Issue(id: Id, user: UserRecord, now: Time, saveSucceeds: bool)
    | Refresh(presented: Token, now: Time, saveSucceeds: bool)

  /** The collection after one request. */
  function Apply(lib: Library, secrets: Secrets, users: Store, req: Request): (after: Store)
  {
    match req
    case Issue(id, user, now, ok) => CreateTokens(Env(lib, secrets, now, ok), users, id, user).users
    case Refresh(t, now, ok) => VerifyRefreshAndCreateNewTokens(Env(lib, secrets, now, ok), users, t).users
  }

  /** The collection after the requests, in order. */
  function Serve(lib: Library, secrets: Secrets, users: Store, reqs: seq<Request>): (after: Store)
    decreases |reqs|
  {
    if reqs == [] then users else Serve(lib, secrets, Apply(lib, secrets, users, reqs[0]), reqs[1..])
  }

  /** Every request keeps each stored token issued for its own user. */
  lemma {:induction false} ServeKeepsIssuedFor(lib: Library, secrets: Secrets, users: Store, reqs: seq<Request>)
    requires IssuedFor(lib, secrets, users)
    ensures IssuedFor(lib, secrets, Serve(lib, secrets, users, reqs))
    decreases |reqs|
  {
    if reqs != [] {
      match reqs[0] {
        case Issue(id, user, now, ok) => CreateTokensKeepsIssuedFor(Env(lib, secrets, now, ok), users, id, user);
        case Refresh(t, now, ok) => RotationKeepsIssuedFor(Env(lib, secrets, now, ok), users, t);
      }
      ServeKeepsIssuedFor(lib, secrets, Apply(lib, secrets, users, reqs[0]), reqs[1..]);
    }
  }

  /**
   * The only user a request can sign a refresh token for: the id of an
   * issuing call, or the `_id` that a rotation's presented token verifies to.
   */
  function SigningId(lib: Library, secrets: Secrets, req: Request): (id: Option<Id>)
    ensures req.Issue? ==> id == Some(req.id)
    ensures req.Refresh? && VerifyRefreshToken(lib, secrets, req.now, req.presented).None? ==> id.None?
  {
    match req
    case Issue(id, _, _, _) => Some(id)
    case Refresh(t, now, _) =>
      match VerifyRefreshToken(lib, secrets, now, t)
      case None => None
      case Some(payload) => payload.id
  }

  /**
   * No request in `reqs`, at its own time, would have the library sign
   * `presented` as the refresh token of the user it names.
   */
  ghost predicate NeverReissues(lib: Library, secrets: Secrets, reqs: seq<Request>, presented: Token)
  {
    forall i :: 0 <= i < |reqs| && SigningId(lib, secrets, reqs[i]).Some? ==>
      CreateRefreshToken(lib, secrets, reqs[i].now, RefreshPayload(SigningId(lib, secrets, reqs[i]).value)) != Some(presented)
  }

  /** Requests that would never sign `presented` for the user they name never make any user store it. */
  lemma {:induction false} ServeKeepsUnstored(lib: Library, secrets: Secrets, users: Store, reqs: seq<Request>, presented: Token)
    requires NotStored(users, presented)
    requires NeverReissues(lib, secrets, reqs, presented)
    ensures NotStored(Serve(lib, secrets, users, reqs), presented)
    decreases |reqs|
  {
    if reqs != [] {
      var env := Env(lib, secrets, reqs[0].now, reqs[0].saveSucceeds);
      assert SigningId(lib, secrets, reqs[0]).Some? ==>
        CreateRefreshToken(lib, secrets, reqs[0].now, RefreshPayload(SigningId(lib, secrets, reqs[0]).value)) != Some(presented);
      match reqs[0] {
        case Issue(id, user, now, ok) => CreateTokensKeepsUnstored(env, users, id, user, presented);
        case Refresh(t, now, ok) => RotationKeepsUnstored(env, users, t, presented);
      }
      assert NeverReissues(lib, secrets, reqs[1..], presented) by {
        forall i | 0 <= i < |reqs[1..]| && SigningId(lib, secrets, reqs[1..][i]).Some?
          ensures CreateRefreshToken(lib, secrets, reqs[1..][i].now,
                                     RefreshPayload(SigningId(lib, secrets, reqs[1..][i]).value)) != Some(presented)
        {
          assert reqs[1..][i] == reqs[i + 1];
        }
      }
      ServeKeepsUnstored(lib, secrets, Apply(lib, secrets, users, reqs[0]), reqs[1..], presented);
    }
  }

  /**
   * Single active refresh token: start from a collection whose tokens were
   * all issued by `createTokens` and serve any requests. Then a rotation
   * that hands out a new refresh token makes the presented one useless.
   * It stays useless through any further requests, as long as none of them,
   * at its own time, would have the library sign that same token for the
   * user it names (the id of an issuing call, or the `_id` a rotation's
   * token verifies to); the request that presents it is then rejected
   * whatever its clock, library or save outcome.
   */
  lemma SupersededTokenRejectedAfterRequests(
    lib: Library, secrets: Secrets, users: Store, reqs: seq<Request>,
    presented: Token, now: Time, ok: bool, later: seq<Request>, next: Env)
    requires RoundTrips(lib) && Faithful(lib)
    requires IssuedFor(lib, secrets, users)
    requires var out := VerifyRefreshAndCreateNewTokens(Env(lib, secrets, now, ok), Serve(lib, secrets, users, reqs), presented);
             out.result.Some? && out.result.value.refreshToken != presented
    requires NeverReissues(lib, secrets, later, presented)
    ensures var out := VerifyRefreshAndCreateNewTokens(Env(lib, secrets, now, ok), Serve(lib, secrets, users, reqs), presented);
            var reached := Serve(lib, secrets, out.users, later);
            VerifyRefreshAndCreateNewTokens(next, reached, presented) == Step(None, reached)
  {
    var served := Serve(lib, secrets, users, reqs);
    ServeKeepsIssuedFor(lib, secrets, users, reqs);
    IssuedTokensAreDistinct(lib, secrets, served);
    RotationUnstoresPresented(Env(lib, secrets, now, ok), served, presented);
    var out := VerifyRefreshAndCreateNewTokens(Env(lib, secrets, now, ok), served, presented);
    ServeKeepsUnstored(lib, secrets, out.users, later, presented);
    UnstoredTokenRejected(next, Serve(lib, secrets, out.users, later), presented);
  }
}
