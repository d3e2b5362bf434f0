/**
 * The Discord link flow of the current service (GETOAuthCallback in
 * routes/discord.go). The two calls to Discord and the random source
 * are inputs; what is modelled is the order of the checks and the
 * create-if-absent provisioning of the bearer secret.
 */
module OAuth {
  import opened Wrappers
  import opened Text
  import opened Store
  import opened Http
  import opened Keys

  const MissingCode := Error(400, "Missing code")
  const TokenRequestFailed := Error(500, "Failed to request access token")
  const InvalidCode := Error(400, "Invalid code")
  const UserRequestFailed := Error(500, "Failed to request user")
  const NotWhitelisted := Error(403, "User is not whitelisted")
  const SecretGenerationFailed := Error(500, "Failed to generate secret")

  /** The user id the flow resolves, when both calls to Discord succeed. */
  predicate Resolves(code: string, token: ProviderReply, user: ProviderReply, userId: string) {
    code != "" && token.Success? && user == Success(userId)
  }

  /**
   * `code` is the query parameter, `token` the answer of the token
   * endpoint, `user` the answer of /users/@me for that token, `random`
   * the result of filling a 48-byte key from the random source.
   */
  function CallbackStep(cfg: Config, code: string, token: ProviderReply, user: ProviderReply,
                        random: RandomReply, db: Db): (o: Outcome)
    requires random.RandomBytes? ==> |random.bytes| == 48
    ensures code == "" ==> o == Outcome(MissingCode, db)
    ensures code != "" && token.TransportError? ==> o == Outcome(TokenRequestFailed, db)
    ensures code != "" && token.ErrorState? ==> o == Outcome(InvalidCode, db)
    ensures code != "" && token.Success? && !user.Success? ==> o == Outcome(UserRequestFailed, db)
    ensures o.db != db ==>
      (exists userId :: Resolves(code, token, user, userId) &&
         SecretsKey(cfg, userId) !in db && random.RandomBytes? &&
         o == Outcome(Json(SecretJson(HexEncode(random.bytes))), db[SecretsKey(cfg, userId) := Str(HexEncode(random.bytes))]))
    ensures o.resp.Response? && o.resp.body.SecretJson? ==>
      (exists userId :: Resolves(code, token, user, userId) &&
         GetReply(o.db, SecretsKey(cfg, userId)) == Value(o.resp.body.secret))
    ensures forall userId | Resolves(code, token, user, userId) && !(cfg.allowed.Some? && userId !in cfg.allowed.value) ::
      o == Provision(cfg, userId, random, db)
    ensures WellFormed(db) ==> WellFormed(o.db) && !o.resp.Crash?
  {
    if code == "" then Outcome(MissingCode, db)
    else match token
      case TransportError => Outcome(TokenRequestFailed, db)
      case ErrorState => Outcome(InvalidCode, db)
      case Success(_) =>
        match user
        case TransportError => Outcome(UserRequestFailed, db)
        case ErrorState => Outcome(UserRequestFailed, db)
        case Success(userId) =>
          assert Resolves(code, token, user, userId);
          if cfg.allowed.Some? && userId !in cfg.allowed.value then Outcome(NotWhitelisted, db)
          else Provision(cfg, userId, random, db)
  }

  /** Create-if-absent: an existing secret is returned as it is. */
  function Provision(cfg: Config, userId: string, random: RandomReply, db: Db): (o: Outcome)
    requires random.RandomBytes? ==> |random.bytes| == 48
    ensures var key := SecretsKey(cfg, userId);
      && (o.db == db || (key !in db && random.RandomBytes? && o.db == db[key := Str(HexEncode(random.bytes))]))
      && (o.resp.Response? && o.resp.body.SecretJson? ==> GetReply(o.db, key) == Value(o.resp.body.secret))
    ensures var key := SecretsKey(cfg, userId);
      key in db && db[key].Str? ==> o == Outcome(Json(SecretJson(db[key].s)), db)
    ensures var key := SecretsKey(cfg, userId);
      key !in db && random.RandomBytes? ==>
        o == Outcome(Json(SecretJson(HexEncode(random.bytes))), db[key := Str(HexEncode(random.bytes))])
    ensures SecretsKey(cfg, userId) !in db && random.RandomFailed? ==> o == Outcome(SecretGenerationFailed, db)
    ensures WellFormed(db) ==> WellFormed(o.db) && !o.resp.Crash?
  {
    var key := SecretsKey(cfg, userId);
    match GetReply(db, key)
    case WrongType => Outcome(Crash, db)
    case Value(secret) => Outcome(Json(SecretJson(secret)), db)
    case Nil =>
      match random
      case RandomFailed => Outcome(SecretGenerationFailed, db)
      case RandomBytes(bytes) =>
        var secret := HexEncode(bytes);
        Outcome(Json(SecretJson(secret)), db[key := Str(secret)])
  }

  method Callback(rdb: Redis, cfg: Config, code: string, token: ProviderReply, user: ProviderReply,
                  random: RandomReply) returns (resp: Response)
    requires random.RandomBytes? ==> |random.bytes| == 48
    modifies rdb
    ensures Outcome(resp, rdb.data) == CallbackStep(cfg, code, token, user, random, old(rdb.data))
  {
    if code == "" {
      return MissingCode;
    }
    if token.TransportError? {
      return TokenRequestFailed;
    }
    if token.ErrorState? {
      return InvalidCode;
    }
    if !user.Success? {
      return UserRequestFailed;
    }
    var userId := user.value;
    if cfg.allowed.Some? && userId !in cfg.allowed.value {
      return NotWhitelisted;
    }
    var key := SecretsKey(cfg, userId);
    var stored := rdb.Get(key);
    match stored
    case WrongType =>
      resp := Crash;
    case Value(secret) =>
      resp := Json(SecretJson(secret));
    case Nil =>
      if random.RandomFailed? {
        return SecretGenerationFailed;
      }
      var secret := HexEncode(random.bytes);
      rdb.Set(key, secret);
      resp := Json(SecretJson(secret));
  }

  // ---------------------------------------------------------------------
  // Properties of the link flow
  // ---------------------------------------------------------------------

  /** A user the allow-list does not name gets 403 and the store is not touched. */
  lemma NotListedForbidden(cfg: Config, code: string, token: ProviderReply, userId: string,
                           random: RandomReply, db: Db)
    requires random.RandomBytes? ==> |random.bytes| == 48
    requires Resolves(code, token, Success(userId), userId)
    requires cfg.allowed.Some? && userId !in cfg.allowed.value
    ensures CallbackStep(cfg, code, token, Success(userId), random, db) == Outcome(NotWhitelisted, db)
  {
  }

  /** First link: the secret is the 96-character lowercase hex of the random bytes, and it is stored. */
  lemma {:induction false} FirstLinkMintsSecret(cfg: Config, code: string, token: ProviderReply, userId: string,
                                                bytes: Bytes, db: Db)
    requires |bytes| == 48
    requires Resolves(code, token, Success(userId), userId)
    requires cfg.allowed.None? || userId in cfg.allowed.value
    requires SecretsKey(cfg, userId) !in db
    ensures var o := CallbackStep(cfg, code, token, Success(userId), RandomBytes(bytes), db);
      && o.resp == Json(SecretJson(HexEncode(bytes)))
      && IsSecret(HexEncode(bytes))
      && o.db == db[SecretsKey(cfg, userId) := Str(HexEncode(bytes))]
  {
  }

  /** A failing random source gives 500 and stores nothing. */
  lemma RandomFailureStoresNothing(cfg: Config, code: string, token: ProviderReply, userId: string, db: Db)
    requires Resolves(code, token, Success(userId), userId)
    requires cfg.allowed.None? || userId in cfg.allowed.value
    requires SecretsKey(cfg, userId) !in db
    ensures CallbackStep(cfg, code, token, Success(userId), RandomFailed, db) == Outcome(SecretGenerationFailed, db)
  {
  }

  /** A user who already holds a secret gets it back, and the store is not touched. */
  lemma ExistingSecretReturned(cfg: Config, code: string, token: ProviderReply, userId: string,
                               random: RandomReply, db: Db)
    requires random.RandomBytes? ==> |random.bytes| == 48
    requires Resolves(code, token, Success(userId), userId)
    requires cfg.allowed.None? || userId in cfg.allowed.value
    requires SecretsKey(cfg, userId) in db && db[SecretsKey(cfg, userId)].Str?
    ensures CallbackStep(cfg, code, token, Success(userId), random, db) ==
      Outcome(Json(SecretJson(db[SecretsKey(cfg, userId)].s)), db)
  {
  }

  /**
   * Idempotence: once a link has produced a secret, any later successful
   * link of the same user (another code, other random bytes) returns the
   * same secret and leaves the store as it is.
   */
  lemma {:induction false} RelinkReturnsSameSecret(cfg: Config, code1: string, token1: ProviderReply, random1: RandomReply,
                                                   code2: string, token2: ProviderReply, random2: RandomReply,
                                                   userId: string, db: Db)
    requires random1.RandomBytes? ==> |random1.bytes| == 48
    requires random2.RandomBytes? ==> |random2.bytes| == 48
    requires Resolves(code1, token1, Success(userId), userId) && Resolves(code2, token2, Success(userId), userId)
    ensures var o1 := CallbackStep(cfg, code1, token1, Success(userId), random1, db);
      o1.resp.Response? && o1.resp.body.SecretJson? ==>
        CallbackStep(cfg, code2, token2, Success(userId), random2, o1.db) == o1
  {
    var o1 := CallbackStep(cfg, code1, token1, Success(userId), random1, db);
    if o1.resp.Response? && o1.resp.body.SecretJson? {
      assert GetReply(o1.db, SecretsKey(cfg, userId)) == Value(o1.resp.body.secret);
    }
  }
}
