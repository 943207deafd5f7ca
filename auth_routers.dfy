/** The `/auth` routes: registration, login, token refresh and the current user. */
module AuthRouter {
  import opened Wrappers
  import opened Http
  import opened Decimal
  import opened Crypto
  import opened Tables
  import opened Models
  import opened Schemas
  import opened Dependencies

  /** The refresh-token lifetime: seven days, in seconds. */
  const RefreshLifetime := 7 * 24 * 60 * 60

  const InvalidCredentials := "Invalid email or password"
  const EmailTaken := "Email already registered"
  const Bearer := "bearer"

  /** `criar_token(id, duracao_token)` at clock `now`: claims `sub = str(id)`, `exp = now + duracao_token`. */
  function CreateToken(signer: Signer, id: int, now: int, lifetime: int): (token: string)
    ensures SignerLaws(signer) ==>
              forall t :: t <= now + lifetime ==> signer.decode(token, t) == Some(Claims(Some(IntToString(id)), Some(now + lifetime)))
    ensures SignerLaws(signer) ==> forall t :: now + lifetime < t ==> signer.decode(token, t) == None
    ensures SignerLaws(signer) ==>
              forall t :: signer.decode(token, t).Some? ==>
                signer.decode(token, t).value.sub.Some? && ParseInt(signer.decode(token, t).value.sub.value) == Some(id)
  {
    ParseIntInverse(id);
    signer.encode(Claims(Some(IntToString(id)), Some(now + lifetime)))
  }

  /** The smallest key below `bound` whose user has this email: `filter(User.email == email).first()`. */
  function FindByEmail(users: map<nat, User>, bound: nat, email: string): (r: Option<nat>)
    ensures r.Some? ==> r.value < bound && r.value in users && users[r.value].email == email
    ensures r.Some? ==> forall id :: id in users && id < r.value ==> users[id].email != email
    ensures r.None? ==> forall id :: id in users && id < bound ==> users[id].email != email
  {
    if bound == 0 then None
    else match FindByEmail(users, bound - 1, email)
      case Some(id) => Some(id)
      case None =>
        if bound - 1 in users && users[bound - 1].email == email then Some(bound - 1) else None
  }

  /** Why `autenticar_usuario` returned False. */
  datatype AuthFailure = UnknownEmail | WrongPassword

  /** `autenticar_usuario`: find the user by email, then check the password against the stored hash. */
  function Authenticate(users: Table<User>, h: Hasher, email: string, password: string): (r: Result<CurrentUser, AuthFailure>)
    reads users
    requires users.Valid()
    ensures r == Failure(UnknownEmail) <==> !EmailInUse(users.rows, email)
    ensures r == Failure(WrongPassword) ==>
              exists id :: id in users.rows && users.rows[id].email == email && !h.verify(password, users.rows[id].password)
    ensures r.Success? ==>
              && r.value.id in users.rows && r.value.user == users.rows[r.value.id]
              && r.value.user.email == email && h.verify(password, r.value.user.password)
    ensures EmailsUnique(users.rows) ==>
              (r.Success? <==> exists id :: id in users.rows && users.rows[id].email == email && h.verify(password, users.rows[id].password))
  {
    match FindByEmail(users.rows, users.nextId, email)
    case None => Failure(UnknownEmail)
    case Some(id) =>
      if !h.verify(password, users.rows[id].password) then Failure(WrongPassword)
      else Success(CurrentUser(id, users.rows[id]))
  }

  /**
   * `register_user`: refuse an email already in use, otherwise store one new user whose
   * password field holds the hash of the password; `admin` is whatever the client sent.
   */
  method Register(users: Table<User>, h: Hasher, body: UserBase) returns (resp: Response<Message>)
    requires users.Valid() && EmailsUnique(users.rows)
    modifies users
    ensures users.Valid() && EmailsUnique(users.rows)
    ensures EmailInUse(old(users.rows), body.email) ==>
              resp == Fail(BadRequest(EmailTaken)) && unchanged(users)
    ensures !EmailInUse(old(users.rows), body.email) ==>
              && resp == Ok(CREATED, Message("usuario criado com sucesso"))
              && users.nextId == old(users.nextId) + 1
              && users.rows == old(users.rows)[old(users.nextId) := User(body.name, body.email, h.hash(body.password), body.admin)]
    ensures resp.Ok? && HasherSound(h) ==>
              Authenticate(users, h, body.email, body.password) == Success(CurrentUser(old(users.nextId), users.rows[old(users.nextId)]))
  {
    if FindByEmail(users.rows, users.nextId, body.email).Some? {
      resp := Fail(BadRequest(EmailTaken));
      return;
    }
    var hashed := h.hash(body.password);
    var id := users.Insert(User(body.name, body.email, hashed, body.admin));
    resp := Ok(CREATED, Message("usuario criado com sucesso"));
    if HasherSound(h) {
      assert h.verify(body.password, users.rows[id].password);
    }
  }

  /** `login_user`: on good credentials, an access token and a seven-day refresh token for that user. */
  function Login(users: Table<User>, cfg: Config, h: Hasher, now: int, body: UserLogin): (r: Response<LoginTokens>)
    reads users
    requires users.Valid()
    ensures r.Fail? <==> Authenticate(users, h, body.email, body.password).Failure?
    ensures r.Fail? ==> r.error == Unauthorized(InvalidCredentials)
    ensures r.Ok? ==>
              var who := Authenticate(users, h, body.email, body.password).value;
              && r.code == OK && r.body.tokenType == Bearer
              && r.body.accessToken == CreateToken(cfg.signer, who.id, now, AccessLifetime(cfg))
              && r.body.refreshToken == CreateToken(cfg.signer, who.id, now, RefreshLifetime)
  {
    match Authenticate(users, h, body.email, body.password)
    case Failure(_) => Fail(Unauthorized(InvalidCredentials))
    case Success(who) =>
      Ok(OK, LoginTokens(
        CreateToken(cfg.signer, who.id, now, AccessLifetime(cfg)),
        CreateToken(cfg.signer, who.id, now, RefreshLifetime),
        Bearer))
  }

  /** `login_form`: the same check with `username` as the email; only an access token. */
  function LoginForm(users: Table<User>, cfg: Config, h: Hasher, now: int, form: PasswordForm): (r: Response<AccessToken>)
    reads users
    requires users.Valid()
    ensures r.Fail? <==> Authenticate(users, h, form.username, form.password).Failure?
    ensures r.Fail? ==> r.error == Unauthorized(InvalidCredentials)
    ensures r.Ok? ==>
              && r.code == OK && r.body.tokenType == Bearer
              && r.body.accessToken == CreateToken(cfg.signer, Authenticate(users, h, form.username, form.password).value.id, now, AccessLifetime(cfg))
  {
    match Authenticate(users, h, form.username, form.password)
    case Failure(_) => Fail(Unauthorized(InvalidCredentials))
    case Success(who) => Ok(OK, AccessToken(CreateToken(cfg.signer, who.id, now, AccessLifetime(cfg)), Bearer))
  }

  /** `refresh_token`: a new access token for whichever user the presented token resolved to. */
  function Refresh(gate: Result<CurrentUser, Error>, cfg: Config, now: int): (r: Response<AccessToken>)
    ensures gate.Failure? ==> r == Fail(gate.error)
    ensures gate.Success? ==>
              r == Ok(OK, AccessToken(CreateToken(cfg.signer, gate.value.id, now, AccessLifetime(cfg)), Bearer))
  {
    match gate
    case Failure(e) => Fail(e)
    case Success(who) => Ok(OK, AccessToken(CreateToken(cfg.signer, who.id, now, AccessLifetime(cfg)), Bearer))
  }

  /** `read_current_user`: the current user through the `UserBase` schema, stored hash included. */
  function Me(gate: Result<CurrentUser, Error>): (r: Response<UserBase>)
    ensures gate.Failure? ==> r == Fail(gate.error)
    ensures gate.Success? ==> r.Ok? && r.code == OK
    ensures r.Ok? ==>
              && r.body.password == gate.value.user.password
              && r.body.name == gate.value.user.name
              && r.body.email == gate.value.user.email
              && r.body.admin == gate.value.user.admin
  {
    match gate
    case Failure(e) => Fail(e)
    case Success(who) => Ok(OK, UserBase(who.user.name, who.user.email, who.user.password, who.user.admin))
  }

  /** A token issued for a stored user lets that user through the gate until it expires. */
  lemma IssuedTokenVerifies(users: Table<User>, signer: Signer, id: nat, now: int, lifetime: int, t: int)
    requires SignerLaws(signer)
    requires id in users.rows && t <= now + lifetime
    ensures VerifyToken(users, signer, CreateToken(signer, id, now, lifetime), t) == Success(CurrentUser(id, users.rows[id]))
  {
    ParseIntInverse(id);
  }

  /** After its expiry a token is refused with 401, whoever it was issued for. */
  lemma ExpiredTokenRejected(users: Table<User>, signer: Signer, id: int, now: int, lifetime: int, t: int)
    requires SignerLaws(signer)
    requires now + lifetime < t
    ensures VerifyToken(users, signer, CreateToken(signer, id, now, lifetime), t) == Failure(Unauthorized(Denied))
  {
    assert Expired(Claims(Some(IntToString(id)), Some(now + lifetime)), t);
  }

  /**
   * Both tokens of a successful login name the authenticated user: the access token
   * until `now + AccessLifetime(cfg)`, the refresh token for seven days and not after.
   */
  lemma LoginTokensVerify(users: Table<User>, cfg: Config, h: Hasher, now: int, body: UserLogin, t: int)
    requires users.Valid() && SignerLaws(cfg.signer)
    requires Login(users, cfg, h, now, body).Ok?
    ensures var tokens := Login(users, cfg, h, now, body).body;
            var who := Authenticate(users, h, body.email, body.password).value;
            && (t <= now + AccessLifetime(cfg) ==> VerifyToken(users, cfg.signer, tokens.accessToken, t) == Success(who))
            && (t <= now + RefreshLifetime ==> VerifyToken(users, cfg.signer, tokens.refreshToken, t) == Success(who))
            && (now + RefreshLifetime < t ==> VerifyToken(users, cfg.signer, tokens.refreshToken, t) == Failure(Unauthorized(Denied)))
  {
    var who := Authenticate(users, h, body.email, body.password).value;
    if t <= now + AccessLifetime(cfg) {
      IssuedTokenVerifies(users, cfg.signer, who.id, now, AccessLifetime(cfg), t);
    }
    if t <= now + RefreshLifetime {
      IssuedTokenVerifies(users, cfg.signer, who.id, now, RefreshLifetime, t);
    } else {
      ExpiredTokenRejected(users, cfg.signer, who.id, now, RefreshLifetime, t);
    }
  }

  /**
   * Any token the gate accepts, refresh tokens included, buys a new access token for the
   * same user; repeating this before each expiry renews access without a password.
   */
  lemma RefreshRenews(users: Table<User>, cfg: Config, token: string, now: int, t: int)
    requires SignerLaws(cfg.signer)
    requires VerifyToken(users, cfg.signer, token, now).Success?
    requires t <= now + AccessLifetime(cfg)
    ensures var gate := VerifyToken(users, cfg.signer, token, now);
            VerifyToken(users, cfg.signer, Refresh(gate, cfg, now).body.accessToken, t) == gate
  {
    var who := VerifyToken(users, cfg.signer, token, now).value;
    IssuedTokenVerifies(users, cfg.signer, who.id, now, AccessLifetime(cfg), t);
  }

  /** A stored user whose password field is the hash of `password` logs in with it. */
  lemma AuthenticateStored(users: Table<User>, h: Hasher, id: nat, password: string)
    requires users.Valid() && EmailsUnique(users.rows) && HasherSound(h)
    requires id in users.rows && users.rows[id].password == h.hash(password)
    ensures Authenticate(users, h, users.rows[id].email, password) == Success(CurrentUser(id, users.rows[id]))
  {
    assert h.verify(password, users.rows[id].password);
  }
}
