/**
 * src/lib/auth/tools.js as it runs: a service over the users collection
 * whose two operations update the collection in place. Each method is
 * proved against the function of the same name in AuthSpec.
 */
module AuthTools {
  import opened Wrappers
  import opened Jwt
  import opened Users
  import AuthSpec

  class TokenService {
    /** The signing library and the two secrets: fixed process-wide configuration. */
    const lib: Library
    const secrets: Secrets
    /** The users collection. */
    var users: Store

    constructor (lib: Library, secrets: Secrets, users: Store)
      ensures this.lib == lib && this.secrets == secrets && this.users == users
    {
      this.lib := lib;
      this.secrets := secrets;
      this.users := users;
    }

    /**
     * `createTokens(user)` for the document `user` with id `id`, at time
     * `now`; `saveSucceeds` is whether the database accepts the write.
     */
    method CreateTokens(id: Id, user: UserRecord, now: Time, saveSucceeds: bool)
      returns (r: Result<AuthSpec.TokenPair, AuthSpec.Failure>)
      modifies this
      ensures AuthSpec.Step(r, users) == AuthSpec.CreateTokens(AuthSpec.Env(lib, secrets, now, saveSucceeds), old(users), id, user)
      ensures r.Failure? ==> users == old(users)
      ensures r.Success? ==>
                && id in users
                && users[id] == user.(refreshToken := Some(r.value.refreshToken))
                && forall k :: k in old(users) && k != id ==> users[k] == old(users)[k]
    {
      var accessToken := CreateAccessToken(lib, secrets, now, AccessPayload(id, user.role));
      if accessToken.None? {
        return Failure(AuthSpec.SigningFailed);
      }
      var refreshToken := CreateRefreshToken(lib, secrets, now, RefreshPayload(id));
      if refreshToken.None? {
        return Failure(AuthSpec.SigningFailed);
      }
      var saved := user.(refreshToken := refreshToken);
      if !saveSucceeds {
        return Failure(AuthSpec.SaveFailed);
      }
      users := Save(users, id, saved);
      return Success(AuthSpec.TokenPair(accessToken.value, refreshToken.value));
    }

    /**
     * `verifyRefreshAndCreateNewTokens(currentRefreshToken)` at time `now`.
     * Every rejection, including one from `createTokens`, yields `None` and
     * leaves the collection as it was.
     */
    method VerifyRefreshAndCreateNewTokens(presented: Token, now: Time, saveSucceeds: bool)
      returns (r: Option<AuthSpec.TokenPair>)
      modifies this
      ensures AuthSpec.Step(r, users)
                == AuthSpec.VerifyRefreshAndCreateNewTokens(AuthSpec.Env(lib, secrets, now, saveSucceeds), old(users), presented)
      ensures r.None? ==> users == old(users)
      ensures r.Some? ==>
                exists id :: id in old(users) && AuthSpec.Accepts(old(users)[id].refreshToken, presented)
                  && users == old(users)[id := old(users)[id].(refreshToken := Some(r.value.refreshToken))]
    {
      var payload := VerifyRefreshToken(lib, secrets, now, presented);
      if payload.None? {
        return None;
      }
      var user := FindById(users, payload.value.id);
      if user.None? {
        return None;
      }
      if AuthSpec.Accepts(user.value.refreshToken, presented) {
        var created := CreateTokens(payload.value.id.value, user.value, now, saveSucceeds);
        if created.Success? {
          return Some(created.value);
        }
      }
      return None;
    }
  }
}
