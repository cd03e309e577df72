/**
 * The token lifecycle of src/lib/auth/tools.js as functions on the users
 * collection: each operation returns what the caller receives together
 * with the collection after the call.
 */
module AuthSpec {
  import opened Wrappers
  import opened Jwt
  import opened Users

  /** What `createTokens` resolves with. */
  datatype TokenPair = TokenPair(accessToken: Token, refreshToken: Token)

  /** Why `createTokens` rejects: a signing callback reported an error, or `save` failed. */
  datatype Failure = SigningFailed | SaveFailed

  /**
   * Everything an operation depends on besides the collection: the signing
   * library, the two secrets, the clock, and whether the database accepts
   * the write that `save` issues.
   */
  datatype Env = Env(lib: Library, secrets: Secrets, now: Time, saveSucceeds: bool)

  /** A result and the collection after the operation. */
  datatype Step<+R> = Step(result: R, users: Store)

  /** The access token `createTokens` signs for a user: over `{ _id, role }` with `JWT_SECRET`. */
  function AccessTokenFor(env: Env, id: Id, role: Role): (t: Option<Token>)
  {
    CreateAccessToken(env.lib, env.secrets, env.now, AccessPayload(id, role))
  }

  /** The refresh token `createTokens` signs for a user: over `{ _id }` with `REFRESH_SECRET`, no role. */
  function RefreshTokenFor(env: Env, id: Id): (t: Option<Token>)
  {
    CreateRefreshToken(env.lib, env.secrets, env.now, RefreshPayload(id))
  }

  /**
   * `createTokens(user)` for the document `user` whose id is `id`: sign the
   * access token, then the refresh token, then store the refresh token on
   * the document and save it. A failure at any step rejects, and nothing
   * has been written by then.
   */
  function CreateTokens(env: Env, users: Store, id: Id, user: UserRecord): (out: Step<Result<TokenPair, Failure>>)
    ensures out.result.Success? ==>
              && AccessTokenFor(env, id, user.role) == Some(out.result.value.accessToken)
              && RefreshTokenFor(env, id) == Some(out.result.value.refreshToken)
              && out.users == Save(users, id, user.(refreshToken := Some(out.result.value.refreshToken)))
    ensures out.result.Failure? ==> out.users == users
    ensures out.result.Success? <==>
              AccessTokenFor(env, id, user.role).Some? && RefreshTokenFor(env, id).Some? && env.saveSucceeds
    ensures out.result == Failure(SaveFailed) <==>
              AccessTokenFor(env, id, user.role).Some? && RefreshTokenFor(env, id).Some? && !env.saveSucceeds
  {
    match AccessTokenFor(env, id, user.role)
    case None => Step(Failure(SigningFailed), users)
    case Some(accessToken) =>
      match RefreshTokenFor(env, id)
      case None => Step(Failure(SigningFailed), users)
      case Some(refreshToken) =>
        if !env.saveSucceeds then Step(Failure(SaveFailed), users)
        else Step(Success(TokenPair(accessToken, refreshToken)),
                  Save(users, id, user.(refreshToken := Some(refreshToken))))
  }

  /**
   * The test on src/lib/auth/tools.js:59: the stored refresh token is truthy and strictly
   * equal to the presented one.
   */
  predicate Accepts(stored: Option<Token>, presented: Token)
    ensures Accepts(stored, presented) ==> stored == Some(presented) && presented != ""
    ensures stored == Some(presented) && presented != "" ==> Accepts(stored, presented)
    ensures stored.None? || stored == Some("") ==> !Accepts(stored, presented)
  {
    Truthy(stored) && stored == Some(presented)
  }

  /**
   * `verifyRefreshAndCreateNewTokens(currentRefreshToken)`: verify the
   * presented token, find the user named by its `_id`, accept it only if it
   * is the truthy token stored for that user, and then issue a new pair
   * through `createTokens`. Every failure, including a rejection of
   * `createTokens`, ends in the empty `catch`: the result is `None`.
   */
  function VerifyRefreshAndCreateNewTokens(env: Env, users: Store, presented: Token): (out: Step<Option<TokenPair>>)
    ensures out.result.None? ==> out.users == users
    ensures out.result.Some? ==>
              exists id :: id in users && Accepts(users[id].refreshToken, presented)
                && out.users == users[id := users[id].(refreshToken := Some(out.result.value.refreshToken))]
  {
    match VerifyRefreshToken(env.lib, env.secrets, env.now, presented)
    case None => Step(None, users)
    case Some(payload) =>
      match FindById(users, payload.id)
      case None => Step(None, users)
      case Some(user) =>
        if Accepts(user.refreshToken, presented) then
          var created := CreateTokens(env, users, payload.id.value, user);
          Step(created.result.ToOption(), created.users)
        else
          Step(None, users)
  }
}
