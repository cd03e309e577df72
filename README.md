# Refresh-token rotation of a JWT-authenticated user API

This project models the token helpers of a small user-management REST API
(`src/lib/auth/tools.js`). `createTokens` issues an access token and a
refresh token for a user. It stores the refresh token on the user's
document. `verifyRefreshAndCreateNewTokens` trades a refresh token for a new
pair. It accepts the token only if the token verifies, names an existing
user, and equals the truthy token stored for that user.

The model has three parts:

- `Jwt`: the four promise wrappers around the signing library. The library
  is a `Library` value with two uninterpreted operations, `sign` and
  `verify`, each keyed by a secret. Two secrets are configured:
  `JWT_SECRET` and `REFRESH_SECRET`. The lifetimes `"15m"` and `"1 week"`
  are opaque constants. Properties the library is expected to have appear
  only as hypotheses of lemmas (`RoundTrips`, `Faithful`, `BoundToSecret`).
- `Users`: the users collection. It is a map from id to a record holding
  `role` and `refreshToken: Option<Token>`. `findById` is a lookup and
  `save` replaces the document's record.
- `AuthSpec`: the two operations as functions. Each returns the caller's
  result together with the collection after the call. `AuthTools` holds a
  class `TokenService` whose methods update a `users` field in place; each
  method is proved equal to its `AuthSpec` function. `AuthProperties` and
  `AuthSessions` prove what the operations guarantee, for one call and
  across any sequence of `createTokens` and rotation calls.

Several things the code depends on become parameters, because they are
outside the code: the signing library, the secrets (read from the process
environment in the source), the clock (`now`, which the library uses for
issuance and expiry), and whether the database accepts the write issued by
`user.save()` (`saveSucceeds`). One `now` serves every library call of
one operation: the verify and both signings of a rotation all happen at
the same instant, although the source awaits them one after another.

Rotation swallows every error in its empty `catch`
(src/lib/auth/tools.js:67-69) and resolves to `undefined`, modelled as
`None`; a caller never learns why a token was rejected. Issuing a new pair
invalidates the old refresh token only if the library produces a different
token, which the code does not ensure, so `SupersededTokenRejected` assumes
it.

## Model

| member | source | states |
|---|---|---|
| `Jwt.AccessPayload` | src/lib/auth/tools.js:7 | the access payload carries exactly the claims `_id` and `role` |
| `Jwt.RefreshPayload` | src/lib/auth/tools.js:8 | the refresh payload carries `_id` and no `role` |
| `Jwt.CreateAccessToken` | src/lib/auth/tools.js:18-24 | signing uses `JWT_SECRET` and the 15-minute lifetime; a signing error yields no token |
| `Jwt.VerifyAccessToken` | src/lib/auth/tools.js:26-32 | verification uses `JWT_SECRET`; a rejected token yields no payload |
| `Jwt.CreateRefreshToken` | src/lib/auth/tools.js:34-40 | signing uses `REFRESH_SECRET` and the one-week lifetime; a signing error yields no token |
| `Jwt.VerifyRefreshToken` | src/lib/auth/tools.js:42-48 | verification uses `REFRESH_SECRET`; a rejected token yields no payload |
| `Jwt.IssuedTokensVerify` | src/lib/auth/tools.js:18-48 | if the library round-trips, each issued token verifies with its own wrapper to the exact payload it was signed over |
| `Jwt.KindsDoNotMix` | src/lib/auth/tools.js:18-48 | if tokens are bound to their secret and the two secrets differ, an access token never verifies as a refresh token, and a refresh token never verifies as an access token |
| `Users.FindById` | src/lib/auth/tools.js:56-57 | a user is found exactly when the payload has an `_id` that is a key of the collection, and then it is that key's record |
| `Users.Truthy` | src/lib/auth/tools.js:59 | JavaScript truthiness of the stored token: absent and `""` are falsy, every non-empty string is truthy |
| `AuthSpec.Accepts` | src/lib/auth/tools.js:59 | the stored token is accepted exactly when it is the presented token and that token is non-empty; an absent or empty stored token never is |
| `Users.Save` | src/lib/auth/tools.js:11-12 | saving replaces the record under the document's id and leaves every other record as it was |
| `AuthSpec.CreateTokens` | src/lib/auth/tools.js:5-16 | success happens exactly when both signings and the save succeed; on success the tokens are the two signed ones and the stored record gets the new refresh token; on failure nothing is written, and the failure is `SaveFailed` exactly when only the save failed |
| `AuthSpec.VerifyRefreshAndCreateNewTokens` | src/lib/auth/tools.js:50-70 | a rejected rotation leaves the collection unchanged; a successful one replaces, for one user whose stored token accepts the presented one, that token by the returned one and changes nothing else (the full case analysis is `AuthProperties.RotationOutcome`) |
| `AuthProperties.CreateTokensStoresReturnedToken` | src/lib/auth/tools.js:8-15 | after success, the user's stored refresh token equals the returned one, its role is unchanged, and no other record changes |
| `AuthProperties.CreateTokensPayloads` | src/lib/auth/tools.js:7-8 | the access token is signed over exactly `{_id, role}` with `JWT_SECRET`; the refresh token is signed over exactly `{_id}` with `REFRESH_SECRET` |
| `AuthProperties.CreateTokensFailurePersistsNothing` | src/lib/auth/tools.js:7-12 | if either signing or the save fails, the call rejects and the collection is unchanged |
| `AuthProperties.RotationRejectsUnverifiedToken` | src/lib/auth/tools.js:51-53 | a token that `REFRESH_SECRET` does not verify yields nothing and changes nothing |
| `AuthProperties.RotationRejectsUnknownUser` | src/lib/auth/tools.js:56-57 | a verified payload with a missing or unknown `_id` yields nothing and changes nothing |
| `AuthProperties.RotationRejectsEmptyStoredToken` | src/lib/auth/tools.js:59-66 | a user whose stored token is absent or empty is never rotated, whatever token is presented |
| `AuthProperties.RotationRejectsMismatch` | src/lib/auth/tools.js:59-66 | a presented token that differs from the stored one yields nothing and changes nothing |
| `AuthProperties.RotationOutcome` | src/lib/auth/tools.js:50-70 | rotation succeeds if and only if every step succeeds; then only the named user's refresh token changes, to the returned one; otherwise nothing changes; no path raises |
| `AuthProperties.IssuedRefreshTokenRotates` | src/lib/auth/tools.js:5-70 | a refresh token from `createTokens` that is non-empty and still verifies rotates if and only if the new pair can be signed and saved |
| `AuthProperties.CreateTokensKeepsIssuedFor` | src/lib/auth/tools.js:8-12 | after `createTokens`, every stored token is still one signed for its own user with `REFRESH_SECRET` |
| `AuthProperties.RotationKeepsIssuedFor` | src/lib/auth/tools.js:59-63 | rotation keeps every stored token signed for its own user |
| `AuthProperties.IssuedTokensAreDistinct` | src/lib/auth/tools.js:8 | because the refresh payload carries `_id`, a lawful library never gives two users the same token |
| `AuthProperties.SupersededTokenRejected` | src/lib/auth/tools.js:59-63 | when no two users share a token and rotation returned a different token, presenting the old token again fails and changes nothing |
| `AuthProperties.UnstoredTokenRejected` | src/lib/auth/tools.js:59-66 | a token that no user stores is rejected and changes nothing, whatever the clock, library or save outcome |
| `AuthProperties.RotationUnstoresPresented` | src/lib/auth/tools.js:59-63 | when no two users share a token, a rotation that returns a different token leaves no user storing the presented one |
| `AuthProperties.CreateTokensKeepsUnstored` | src/lib/auth/tools.js:8-12 | `createTokens` stores a given token only if it signs exactly that token for the user |
| `AuthProperties.RotationKeepsUnstored` | src/lib/auth/tools.js:59-63 | rotation stores a given token only if the library signs exactly that token, at that time, for the user the presented token names |
| `AuthProperties.CreateTokensSupersedes` | src/lib/auth/tools.js:8-12 | when no two users share a token and `createTokens` stores a token other than the one the user held, the old token is rejected by the next rotation, whatever its clock, library or save outcome |
| `AuthSessions.SigningId` | src/lib/auth/tools.js:53-61 | an issuing call signs for its own id; a rotation whose token does not verify signs for nobody |
| `AuthSessions.ServeKeepsIssuedFor` | src/lib/auth/tools.js:50-70 | any sequence of `createTokens` and rotation calls keeps every stored token signed for its own user |
| `AuthSessions.ServeKeepsUnstored` | src/lib/auth/tools.js:50-70 | a sequence of `createTokens` and rotation calls, none of which would sign a given token for the user it names, never makes any user store it |
| `AuthSessions.SupersededTokenRejectedAfterRequests` | src/lib/auth/tools.js:59-63 | after any calls, a rotation that issued a different token makes the old token fail. It keeps failing through further calls, as long as none of them, at its own time, would have the library sign that same token for the user it names (the id of an issuing call, or the `_id` a rotation's token verifies to); the call that presents it fails whatever its clock, library or save outcome |
| `AuthTools.TokenService.CreateTokens` | src/lib/auth/tools.js:5-16 | the in-place operation returns and stores what `AuthSpec.CreateTokens` gives; on failure the collection is unchanged |
| `AuthTools.TokenService.VerifyRefreshAndCreateNewTokens` | src/lib/auth/tools.js:50-70 | the in-place rotation returns and stores what `AuthSpec.VerifyRefreshAndCreateNewTokens` gives; on `None` the collection is unchanged; on success exactly one accepted user's token is replaced by the returned one |

## Left out

- JWT cryptography, signature checking and expiry belong to the `jsonwebtoken` library. They are uninterpreted. The `iat`/`exp` claims and the meaning of `"15m"` and `"1 week"` are not modelled, so the 900-second and 604800-second lifetimes are not stated.
- `createTokens`: the source sets `refreshToken` on the caller's document before it awaits `save`, so the caller's in-memory document holds the new token even when the save rejects. The model passes the document by value, so this in-place update of the caller's object is not captured. Inside rotation the document is local and the difference cannot be observed.
- The claim that the old refresh token always fails after a new pair is issued is not made. The library can return the same token twice, for example when both are signed in the same second. `SupersededTokenRejected` (rotation) and `CreateTokensSupersedes` (issuing, as at a login) therefore assume that the new token differs from the old one.
- The HTTP errors created on the 404 and 401 paths are swallowed by the empty `catch`. They cannot be observed, so every rejection is one `None` outcome.
- Mongoose persistence is reduced to a map lookup and a map update. Atomicity, validators, casting of malformed ids (which also ends in the `catch`) and modified-path tracking are not modelled. `save` writes the whole record of the document it was given.
- Concurrency is not modelled. Requests in `AuthSessions` run one after another, so the last-write-wins race between two rotations for the same user is out of scope.
- Promises are replaced by sequenced steps. The secrets are parameters instead of `process.env` reads.
- The token-kind laws (`RoundTrips`, `Faithful`, `BoundToSecret`) are hypotheses about the library. They are not proved.
- `AuthSessions.SupersededTokenRejectedAfterRequests`: with `AuthSessions.ServeKeepsIssuedFor` and `AuthSessions.ServeKeepsUnstored`, it covers only `createTokens` and rotation calls. Creating a user (src/api/users/index.js:10) and updating one's own record (src/api/users/index.js:37) can write `refreshToken` directly from the request body. Such writes would break the invariants, and `AuthSessions.Request` does not include them.
- `src/api/users/index.js` (route handlers that forward to the ORM) and the authentication middlewares are not part of this model.
