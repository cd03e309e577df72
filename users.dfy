/**
 * The users collection as the authentication helpers see it: a map from a
 * user's id to the two fields they touch. `findById` is a lookup and
 * `save` an overwrite of the document's record under its id.
 */
module Users {
  import opened Wrappers
  import opened Jwt

  /** A user document: its role and its stored refresh token, if any. */
  datatype UserRecord = UserRecord(role: Role, refreshToken: Option<Token>)

  type Store = map<Id, UserRecord>

  /**
   * `UsersModel.findById(_id)`. An absent `_id` (a payload without the
   * claim) finds nothing, as `findById(undefined)` resolves to `null`.
   */
  function FindById(users: Store, id: Option<Id>): (u: Option<UserRecord>)
    ensures u.Some? <==> id.Some? && id.value in users
    ensures u.Some? ==> u.value == users[id.value]
  {
    if id.Some? && id.value in users then Some(users[id.value]) else None
  }

  /** `user.save()` for the document with the given id: its record is replaced, no other is touched. */
  function Save(users: Store, id: Id, user: UserRecord): (after: Store)
    ensures after.Keys == users.Keys + {id}
    ensures after[id] == user
    ensures forall k :: k in users && k != id ==> after[k] == users[k]
  {
    users[id := user]
  }

  /** JavaScript truthiness of the stored `refreshToken`: present and not the empty string. */
  predicate Truthy(t: Option<Token>)
    ensures t.None? ==> !Truthy(t)
    ensures t == Some("") ==> !Truthy(t)
    ensures t.Some? && |t.value| > 0 ==> Truthy(t)
  {
    t.Some? && t.value != ""
  }
}
