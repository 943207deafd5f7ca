/** Configuration and the token gate every protected route depends on. */
module Dependencies {
  import opened Wrappers
  import opened Http
  import opened Decimal
  import opened Crypto
  import opened Tables
  import opened Models

  const DefaultAccessMinutes := 30

  /**
   * `int(os.getenv("ACCESS_TOKEN_EXPIRE_MINUTES", 30))`: 30 when the variable is unset,
   * otherwise its decimal value; None stands for the ValueError that stops the import.
   */
  function AccessMinutes(env: Option<string>): (m: Option<int>)
    ensures env == None ==> m == Some(DefaultAccessMinutes)
    ensures forall n :: env == Some(IntToString(n)) ==> m == Some(n)
    ensures env.Some? && env.value == [] ==> m == None
  {
    ParseIntInverseAll();
    match env
    case None => Some(DefaultAccessMinutes)
    case Some(s) => ParseInt(s)
  }

  /** The signing key and algorithm (inside the signer) and the access-token lifetime. */
  datatype Config = Config(signer: Signer, accessMinutes: int)

  /**
   * The configuration the application starts with: the lifetime read from the environment,
   * or no configuration at all when the variable does not parse (the import fails).
   */
  function ConfigFrom(signer: Signer, env: Option<string>): (cfg: Option<Config>)
    ensures env == None ==> cfg == Some(Config(signer, DefaultAccessMinutes)) && AccessLifetime(cfg.value) == 30 * 60
    ensures forall n :: env == Some(IntToString(n)) ==> cfg == Some(Config(signer, n))
    ensures env.Some? && env.value == [] ==> cfg == None
    ensures cfg.Some? ==> cfg.value.signer == signer
  {
    match AccessMinutes(env)
    case Some(m) => Some(Config(signer, m))
    case None => None
  }

  /** The access-token lifetime in seconds, the clock's unit. */
  function AccessLifetime(cfg: Config): int {
    cfg.accessMinutes * 60
  }

  /** The user a request acts as: the key of the `users` row and the row itself. */
  datatype CurrentUser = CurrentUser(id: nat, user: User)

  const Denied := "Acesso negado"

  /**
   * `verify_token`: decode the bearer token, read its subject with `int(...)`, load that
   * user. A decode failure and an unknown user give 401; a missing or non-numeric subject
   * is not a JWTError, escapes the `except` and ends the request with 500.
   */
  function VerifyToken(users: Table<User>, signer: Signer, token: string, now: int): (r: Result<CurrentUser, Error>)
    reads users
    ensures signer.decode(token, now).None? ==> r == Failure(Unauthorized(Denied))
    ensures signer.decode(token, now).Some? && signer.decode(token, now).value.sub.None? ==>
              r == Failure(Unhandled(SubjectMissing))
    ensures signer.decode(token, now).Some? && signer.decode(token, now).value.sub.Some? &&
            ParseInt(signer.decode(token, now).value.sub.value).None? ==>
              r == Failure(Unhandled(SubjectNotInteger))
    ensures r.Failure? && r.error.Unhandled? ==>
              && signer.decode(token, now).Some?
              && var sub := signer.decode(token, now).value.sub;
                 (sub.None? && r.error.fault == SubjectMissing) || (sub.Some? && ParseInt(sub.value).None? && r.error.fault == SubjectNotInteger)
    ensures r.Success? <==>
              && signer.decode(token, now).Some?
              && var sub := signer.decode(token, now).value.sub;
                 sub.Some? && ParseInt(sub.value).Some? && users.Has(ParseInt(sub.value).value)
    ensures r.Success? ==>
              && ParseInt(signer.decode(token, now).value.sub.value) == Some(r.value.id as int)
              && r.value.id in users.rows && r.value.user == users.rows[r.value.id]
    ensures r.Failure? && !r.error.Unhandled? ==> r.error == Unauthorized(Denied)
  {
    match signer.decode(token, now)
    case None => Failure(Unauthorized(Denied))
    case Some(claims) =>
      match claims.sub
      case None => Failure(Unhandled(SubjectMissing))
      case Some(sub) =>
        match ParseInt(sub)
        case None => Failure(Unhandled(SubjectNotInteger))
        case Some(id) =>
          if users.Has(id) then Success(CurrentUser(id as nat, users.rows[id as nat]))
          else Failure(Unauthorized(Denied))
  }
}
