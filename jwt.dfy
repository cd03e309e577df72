/**
 * The four promise wrappers around the JSON Web Token library
 * (src/lib/auth/tools.js:18-48).
 *
 * The library itself is not modelled: `Library` carries its `sign` and
 * `verify` operations as uninterpreted function values. `sign` may fail
 * (the callback's `err`), `verify` may reject (bad signature, malformed or
 * expired token). Both receive the current time, which is where issuance
 * time and expiry enter; what they do with it is up to the library.
 */
module Jwt {
  import opened Wrappers

  type Token = string
  type Secret = string
  type Id = string
  type Role = string
  /** A lifetime as the library's `expiresIn` option spells it. */
  type Lifetime = string
  /** Seconds on the process clock. */
  type Time = nat

  const AccessLifetime: Lifetime := "15m"
  const RefreshLifetime: Lifetime := "1 week"

  /**
   * The claims of a token that this code writes or reads: `_id` and `role`.
   * A claim that is not present is `None`. The library's own `iat`/`exp`
   * claims are not part of it.
   */
  datatype Payload = Payload(id: Option<Id>, role: Option<Role>)

  /** The payload an access token is signed over: exactly `{ _id, role }`. */
  function AccessPayload(id: Id, role: Role): (p: Payload)
    ensures p.id == Some(id) && p.role == Some(role)
  {
    Payload(Some(id), Some(role))
  }

  /** The payload a refresh token is signed over: exactly `{ _id }`, no role. */
  function RefreshPayload(id: Id): (p: Payload)
    ensures p.id == Some(id) && p.role.None?
  {
    Payload(Some(id), None)
  }

  /** The signing library, `jwt.sign` and `jwt.verify`, kept abstract. */
  datatype Library = Library(
    sign: (Payload, Secret, Lifetime, Time) -> Option<Token>,
    verify: (Token, Secret, Time) -> Option<Payload>)

  /** The two process-wide secrets, `JWT_SECRET` and `REFRESH_SECRET`. */
  datatype Secrets = Secrets(jwtSecret: Secret, refreshSecret: Secret)

  /** `createAccessToken`: signs with `JWT_SECRET`, valid for 15 minutes. */
  function CreateAccessToken(lib: Library, secrets: Secrets, now: Time, payload: Payload): (t: Option<Token>)
    ensures t == lib.sign(payload, secrets.jwtSecret, AccessLifetime, now)
  {
    lib.sign(payload, secrets.jwtSecret, AccessLifetime, now)
  }

  /** `verifyAccessToken`: checks against `JWT_SECRET`. */
  function VerifyAccessToken(lib: Library, secrets: Secrets, now: Time, token: Token): (p: Option<Payload>)
    ensures p == lib.verify(token, secrets.jwtSecret, now)
  {
    lib.verify(token, secrets.jwtSecret, now)
  }

  /** `createRefreshToken`: signs with `REFRESH_SECRET`, valid for one week. */
  function CreateRefreshToken(lib: Library, secrets: Secrets, now: Time, payload: Payload): (t: Option<Token>)
    ensures t == lib.sign(payload, secrets.refreshSecret, RefreshLifetime, now)
  {
    lib.sign(payload, secrets.refreshSecret, RefreshLifetime, now)
  }

  /** `verifyRefreshToken`: checks against `REFRESH_SECRET`. */
  function VerifyRefreshToken(lib: Library, secrets: Secrets, now: Time, token: Token): (p: Option<Payload>)
    ensures p == lib.verify(token, secrets.refreshSecret, now)
  {
    lib.verify(token, secrets.refreshSecret, now)
  }

  /**
   * A law the library is expected to obey: a token, verified at the time it
   * was issued with the secret it was signed with, yields the payload it was
   * signed over. Used only as a hypothesis.
   */
  ghost predicate RoundTrips(lib: Library)
  {
    forall p, s, l, now, t :: lib.sign(p, s, l, now) == Some(t) ==> lib.verify(t, s, now) == Some(p)
  }

  /**
   * A second law: a token is rejected by every secret other than the one it
   * was signed with. Used only as a hypothesis.
   */
  ghost predicate BoundToSecret(lib: Library)
  {
    forall p, s, l, now, t, s', now' ::
      lib.sign(p, s, l, now) == Some(t) && s' != s ==> lib.verify(t, s', now') == None
  }

  /**
   * A third law: verification, at any time and with the signing secret,
   * either rejects the token (expired, say) or yields exactly the payload it
   * was signed over; it never yields another. Used only as a hypothesis.
   */
  ghost predicate Faithful(lib: Library)
  {
    forall p, s, l, now, t, later ::
      lib.sign(p, s, l, now) == Some(t) ==> lib.verify(t, s, later) == None || lib.verify(t, s, later) == Some(p)
  }

  /** Tokens verify with the wrapper that matches the one that issued them. */
  lemma IssuedTokensVerify(lib: Library, secrets: Secrets, now: Time, id: Id, role: Role)
    requires RoundTrips(lib)
    ensures var a := CreateAccessToken(lib, secrets, now, AccessPayload(id, role));
            a.Some? ==> VerifyAccessToken(lib, secrets, now, a.value) == Some(AccessPayload(id, role))
    ensures var r := CreateRefreshToken(lib, secrets, now, RefreshPayload(id));
            r.Some? ==> VerifyRefreshToken(lib, secrets, now, r.value) == Some(RefreshPayload(id))
  {
  }

  /**
   * With distinct secrets, an access token is never accepted as a refresh
   * token and a refresh token never as an access token.
   */
  lemma KindsDoNotMix(lib: Library, secrets: Secrets, now: Time, later: Time, p: Payload, q: Payload)
    requires BoundToSecret(lib)
    requires secrets.jwtSecret != secrets.refreshSecret
    ensures var a := CreateAccessToken(lib, secrets, now, p);
            a.Some? ==> VerifyRefreshToken(lib, secrets, later, a.value).None?
    ensures var r := CreateRefreshToken(lib, secrets, now, q);
            r.Some? ==> VerifyAccessToken(lib, secrets, later, r.value).None?
  {
  }
}
