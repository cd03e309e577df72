/**
 * What the token lifecycle guarantees, stated over the functional model in
 * AuthSpec: which branch of the rotation rejects, what the collection holds
 * after each branch, and how two calls relate.
 */
module AuthProperties {
  import opened Wrappers
  import opened Jwt
  import opened Users
  import opened AuthSpec

  /** The refresh token `createTokens` returns is the one it stores on the user's record. */
  lemma CreateTokensStoresReturnedToken(env: Env, users: Store, id: Id, user: UserRecord)
    ensures var out := CreateTokens(env, users, id, user);
            out.result.Success? ==>
              && id in out.users
              && out.users[id].refreshToken == Some(out.result.value.refreshToken)
              && out.users[id].role == user.role
              && out.users.Keys == users.Keys + {id}
              && forall k :: k in users && k != id ==> out.users[k] == users[k]
  {
  }

  /**
   * The access token is signed over exactly `{ _id, role }` with
   * `JWT_SECRET`; the refresh token over exactly `{ _id }` with
   * `REFRESH_SECRET`: the role never enters a refresh payload.
   */
  lemma CreateTokensPayloads(env: Env, users: Store, id: Id, user: UserRecord)
    ensures var out := CreateTokens(env, users, id, user);
            out.result.Success? ==>
              && env.lib.sign(Payload(Some(id), Some(user.role)), env.secrets.jwtSecret, AccessLifetime, env.now)
                   == Some(out.result.value.accessToken)
              && env.lib.sign(Payload(Some(id), None), env.secrets.refreshSecret, RefreshLifetime, env.now)
                   == Some(out.result.value.refreshToken)
  {
  }

  /** If either signing step fails, or `save` does, nothing is persisted. */
  lemma CreateTokensFailurePersistsNothing(env: Env, users: Store, id: Id, user: UserRecord)
    ensures var out := CreateTokens(env, users, id, user);
            (AccessTokenFor(env, id, user.role).None? || RefreshTokenFor(env, id).None? || !env.saveSucceeds)
              ==> out.result.Failure? && out.users == users
  {
  }

  /** A token the refresh secret does not verify yields nothing and changes nothing. */
  lemma RotationRejectsUnverifiedToken(env: Env, users: Store, presented: Token)
    requires VerifyRefreshToken(env.lib, env.secrets, env.now, presented).None?
    ensures VerifyRefreshAndCreateNewTokens(env, users, presented) == Step(None, users)
  {
  }

  /** A verified payload whose `_id` names no user yields nothing and changes nothing. */
  lemma RotationRejectsUnknownUser(env: Env, users: Store, presented: Token, payload: Payload)
    requires VerifyRefreshToken(env.lib, env.secrets, env.now, presented) == Some(payload)
    requires payload.id.None? || payload.id.value !in users
    ensures VerifyRefreshAndCreateNewTokens(env, users, presented) == Step(None, users)
  {
  }

  /** A user whose stored refresh token is absent or empty is never rotated, whatever is presented. */
  lemma RotationRejectsEmptyStoredToken(env: Env, users: Store, id: Id)
    requires id in users
    requires users[id].refreshToken == None || users[id].refreshToken == Some("")
    ensures forall presented: Token, payload: Payload ::
              VerifyRefreshToken(env.lib, env.secrets, env.now, presented) == Some(payload) && payload.id == Some(id)
              ==> VerifyRefreshAndCreateNewTokens(env, users, presented) == Step(None, users)
  {
  }

  /** A presented token that differs from the stored one yields nothing and changes nothing. */
  lemma RotationRejectsMismatch(env: Env, users: Store, presented: Token, payload: Payload)
    requires VerifyRefreshToken(env.lib, env.secrets, env.now, presented) == Some(payload)
    requires payload.id.Some? && payload.id.value in users
    requires users[payload.id.value].refreshToken != Some(presented)
    ensures VerifyRefreshAndCreateNewTokens(env, users, presented) == Step(None, users)
  {
  }

  /**
   * Rotation succeeds exactly when every step does: the token verifies, its
   * `_id` names a user, the user's stored token is truthy and equal to the
   * presented one, both tokens are signed and the record is saved. Then the
   * user's stored token is the returned one and no other record changes;
   * otherwise nothing changes at all. No path raises.
   */
  lemma RotationOutcome(env: Env, users: Store, presented: Token)
    ensures var out := VerifyRefreshAndCreateNewTokens(env, users, presented);
            var v := VerifyRefreshToken(env.lib, env.secrets, env.now, presented);
            && (out.result.None? ==> out.users == users)
            && (out.result.Some? <==>
                  && v.Some? && v.value.id.Some? && v.value.id.value in users
                  && Accepts(users[v.value.id.value].refreshToken, presented)
                  && AccessTokenFor(env, v.value.id.value, users[v.value.id.value].role).Some?
                  && RefreshTokenFor(env, v.value.id.value).Some?
                  && env.saveSucceeds)
            && (out.result.Some? ==>
                  var id := v.value.id.value;
                  && out.result.value.accessToken == AccessTokenFor(env, id, users[id].role).value
                  && out.result.value.refreshToken == RefreshTokenFor(env, id).value
                  && out.users.Keys == users.Keys
                  && out.users[id] == users[id].(refreshToken := Some(out.result.value.refreshToken))
                  && forall k :: k in users && k != id ==> out.users[k] == users[k])
  {
  }

  /**
   * A refresh token issued by `createTokens` can be rotated later, as long
   * as the library still verifies it, the token is not empty, and the new
   * pair can be signed and saved.
   */
  lemma IssuedRefreshTokenRotates(env: Env, users: Store, id: Id, user: UserRecord, later: Env)
    requires Faithful(env.lib)
    requires later.lib == env.lib && later.secrets == env.secrets
    requires var out := CreateTokens(env, users, id, user);
             && out.result.Success?
             && out.result.value.refreshToken != ""
             && VerifyRefreshToken(later.lib, later.secrets, later.now, out.result.value.refreshToken).Some?
    ensures var out := CreateTokens(env, users, id, user);
            var rotated := VerifyRefreshAndCreateNewTokens(later, out.users, out.result.value.refreshToken);
            rotated.result.Some? <==>
              AccessTokenFor(later, id, user.role).Some? && RefreshTokenFor(later, id).Some? && later.saveSucceeds
  {
  }

  /** No two users hold the same truthy refresh token. */
  ghost predicate DistinctTokens(users: Store)
  {
    forall j, k :: j in users && k in users && j != k && Truthy(users[j].refreshToken)
      ==> users[j].refreshToken != users[k].refreshToken
  }

  /**
   * Every truthy stored refresh token of user `k` is one the library signed
   * over `{ _id: k }` with `REFRESH_SECRET`, at some time: this is what
   * `createTokens` leaves behind.
   */
  ghost predicate IssuedFor(lib: Library, secrets: Secrets, users: Store)
  {
    forall k :: k in users && Truthy(users[k].refreshToken) ==>
      exists t: Time :: CreateRefreshToken(lib, secrets, t, RefreshPayload(k)) == users[k].refreshToken
  }

  /** `createTokens` keeps every stored token issued for its own user. */
  lemma CreateTokensKeepsIssuedFor(env: Env, users: Store, id: Id, user: UserRecord)
    requires IssuedFor(env.lib, env.secrets, users)
    ensures IssuedFor(env.lib, env.secrets, CreateTokens(env, users, id, user).users)
  {
  }

  /** So does rotation. */
  lemma RotationKeepsIssuedFor(env: Env, users: Store, presented: Token)
    requires IssuedFor(env.lib, env.secrets, users)
    ensures IssuedFor(env.lib, env.secrets, VerifyRefreshAndCreateNewTokens(env, users, presented).users)
  {
  }

  /**
   * Under the library's laws, tokens issued for different users differ, so
   * at most one user holds any given refresh token.
   */
  lemma IssuedTokensAreDistinct(lib: Library, secrets: Secrets, users: Store)
    requires RoundTrips(lib) && Faithful(lib)
    requires IssuedFor(lib, secrets, users)
    ensures DistinctTokens(users)
  {
  }

  /**
   * After a rotation that issued a refresh token different from the one
   * presented, presenting the old token again is rejected. Whether the
   * library issues a different token is not something this code controls.
   */
  lemma SupersededTokenRejected(env: Env, users: Store, presented: Token, next: Env)
    requires DistinctTokens(users)
    requires var out := VerifyRefreshAndCreateNewTokens(env, users, presented);
             out.result.Some? && out.result.value.refreshToken != presented
    ensures var out := VerifyRefreshAndCreateNewTokens(env, users, presented);
            VerifyRefreshAndCreateNewTokens(next, out.users, presented) == Step(None, out.users)
  {
  }

  /** No user stores `presented` as its refresh token. */
  ghost predicate NotStored(users: Store, presented: Token)
  {
    forall k :: k in users ==> users[k].refreshToken != Some(presented)
  }

  /** A token no user stores is rejected, whatever the clock, library or save outcome. */
  lemma UnstoredTokenRejected(env: Env, users: Store, presented: Token)
    requires NotStored(users, presented)
    ensures VerifyRefreshAndCreateNewTokens(env, users, presented) == Step(None, users)
  {
  }

  /**
   * When no two users share a token, a rotation that hands out a token other
   * than the presented one leaves no user storing the presented one.
   */
  lemma RotationUnstoresPresented(env: Env, users: Store, presented: Token)
    requires DistinctTokens(users)
    requires var out := VerifyRefreshAndCreateNewTokens(env, users, presented);
             out.result.Some? && out.result.value.refreshToken != presented
    ensures NotStored(VerifyRefreshAndCreateNewTokens(env, users, presented).users, presented)
  {
  }

  /** `createTokens` does not store `presented` unless the library signs it for some user at that time. */
  lemma CreateTokensKeepsUnstored(env: Env, users: Store, id: Id, user: UserRecord, presented: Token)
    requires NotStored(users, presented)
    requires RefreshTokenFor(env, id) != Some(presented)
    ensures NotStored(CreateTokens(env, users, id, user).users, presented)
  {
  }

  /**
   * Nor does rotation, unless the library signs `presented` for the user
   * that the token `t` names.
   */
  lemma RotationKeepsUnstored(env: Env, users: Store, t: Token, presented: Token)
    requires NotStored(users, presented)
    requires var v := VerifyRefreshToken(env.lib, env.secrets, env.now, t);
             v.Some? && v.value.id.Some? ==> RefreshTokenFor(env, v.value.id.value) != Some(presented)
    ensures NotStored(VerifyRefreshAndCreateNewTokens(env, users, t).users, presented)
  {
  }

  /**
   * Issuing a new pair (at a login, say) supersedes the token the user held:
   * when no two users share a token and `createTokens` stores a different
   * one, the old token is rejected by the next rotation, whatever its
   * clock, library or save outcome.
   */
  lemma CreateTokensSupersedes(env: Env, users: Store, id: Id, user: UserRecord, previous: Token, next: Env)
    requires DistinctTokens(users)
    requires id in users && users[id].refreshToken == Some(previous)
    requires var out := CreateTokens(env, users, id, user);
             out.result.Success? && out.result.value.refreshToken != previous
    ensures var out := CreateTokens(env, users, id, user);
            VerifyRefreshAndCreateNewTokens(next, out.users, previous) == Step(None, out.users)
  {
    var out := CreateTokens(env, users, id, user);
    if previous != "" {
      forall k | k in out.users ensures out.users[k].refreshToken != Some(previous) {
        if k != id {
          assert users[id].refreshToken != users[k].refreshToken;
        }
      }
      UnstoredTokenRejected(next, out.users, previous);
    }
  }
}
