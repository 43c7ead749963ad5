/** The passport JWT strategy: the signing secret must be configured, and a
    verified token is accepted only while its subject still exists and is
    not locked. Signature and expiry checks are done by the library and are
    not modelled. */
module JwtStrategy {
  import opened Base
  import opened UserSchema

  const SecretMissing := "JWT_SECRET is not defined in configuration"
  const UserGone := "User no longer exists"
  const AccountLocked := "Account is currently locked"

  /** The constructor: reads `TOKEN` from the configuration and refuses a
      missing or empty secret with a plain Error. */
  function Construct(config: map<string, string>): (r: Result<string, Thrown>)
    ensures r.Ok? <==> "TOKEN" in config && config["TOKEN"] != ""
    ensures r.Ok? ==> r.value == config["TOKEN"]
    ensures r.Err? ==> r.error == Failure(SecretMissing)
  {
    if "TOKEN" !in config || config["TOKEN"] == "" then Err(Failure(SecretMissing))
    else Ok(config["TOKEN"])
  }

  /** `validate(payload)`: `findById(payload.sub).select('-password')`, then
      the two refusals. The table is only read. */
  function Validate(users: seq<User>, sub: UserId, now: int): (r: Result<UserWithoutPassword, HttpException>)
    ensures r == Err(Unauthorized(UserGone)) <==> forall j :: 0 <= j < |users| ==> users[j].id != sub
    ensures r.Ok? ==> exists j :: 0 <= j < |users| && users[j].id == sub && !IsLocked(users[j], now)
                                  && r.value == WithoutPassword(users[j])
    ensures r.Err? ==> r.error == Unauthorized(UserGone) || r.error == Unauthorized(AccountLocked)
  {
    match FindOne(users, IdIs(sub))
    case None => Err(Unauthorized(UserGone))
    case Some(i) =>
      var user := WithoutPassword(users[i]);
      if user.lockUntil.Some? && user.lockUntil.value > now then Err(Unauthorized(AccountLocked))
      else Ok(user)
  }

  /** In a table with unique ids, a token for a stored user is accepted
      exactly while that user is not locked, and then yields that user's
      record without the password. */
  lemma ValidateStoredUser(users: seq<User>, i: nat, now: int)
    requires UniqueKeys(users) && i < |users|
    ensures IsLocked(users[i], now) ==> Validate(users, users[i].id, now) == Err(Unauthorized(AccountLocked))
    ensures !IsLocked(users[i], now) ==> Validate(users, users[i].id, now) == Ok(WithoutPassword(users[i]))
  {
    FindByIdExact(users, i);
  }
}
