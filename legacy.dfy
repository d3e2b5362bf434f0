/**
 * The older Go service (Handlers/Handlers.go). Its handlers are written
 * out on their own and each is proved to answer exactly as the current
 * service does. The one real difference: RequireAuth reads the secrets
 * pepper from the environment at request time, while the callback uses
 * the value captured at startup. The allow-list is taken from the
 * configuration (`cfg.allowed`): the code that fills ALLOWED_USERS in
 * this service is not part of this model, and the model assumes it is
 * parsed as in the current service.
 */
module Legacy {
  import opened Wrappers
  import opened Text
  import opened Store
  import opened Http
  import opened Keys
  import Auth
  import Settings
  import OAuth
  import Account

  /** The key RequireAuth reads: built from the pepper the environment holds now. */
  function RequestTimeSecretsKey(cfg: Config, envPepperSecrets: string, userId: string): (k: string)
    ensures envPepperSecrets == cfg.pepperSecrets ==> k == SecretsKey(cfg, userId)
  {
    SecretsPrefix + cfg.hash(envPepperSecrets + userId)
  }

  /** Same checks in the same order as the current requireAuth, with the key built at request time. */
  function RequireAuth(cfg: Config, envPepperSecrets: string, req: Request, db: Db): (r: Auth.AuthResult)
    ensures envPepperSecrets == cfg.pepperSecrets ==> r == Auth.RequireAuth(cfg, req, db)
  {
    if req.authorization == "" then Auth.Reject(Auth.MissingAuthorization)
    else match cfg.decode(req.authorization)
      case None => Auth.Reject(Auth.InvalidAuthorization)
      case Some(text) =>
        var parts := Split(text, ':');
        if |parts| != 2 then Auth.Reject(Auth.InvalidAuthorization)
        else
          var secret, userId := parts[0], parts[1];
          if cfg.allowed.Some? && req.path != "/v1" && req.verb != "DELETE" && userId !in cfg.allowed.value then
            Auth.Reject(Auth.NotWhitelisted)
          else match GetReply(db, RequestTimeSecretsKey(cfg, envPepperSecrets, userId))
            case Nil => Auth.Reject(Auth.InvalidAuthorization)
            case WrongType => Auth.Reject(Crash)
            case Value(stored) => if stored != secret then Auth.Reject(Auth.InvalidAuthorization) else Auth.Pass(userId)
  }

  /**
   * If the environment's pepper drifts from the value captured at startup
   * (and the hash is collision-free), RequireAuth looks under another key
   * than the one V1OauthCallback wrote.
   */
  lemma {:induction false} PepperDriftMissesSecret(cfg: Config, envPepperSecrets: string, userId: string)
    requires Injective(cfg.hash) && envPepperSecrets != cfg.pepperSecrets
    ensures RequestTimeSecretsKey(cfg, envPepperSecrets, userId) != SecretsKey(cfg, userId)
  {
    PrefixCancels(SecretsPrefix, cfg.hash(envPepperSecrets + userId), cfg.hash(cfg.pepperSecrets + userId));
    assert envPepperSecrets + userId == cfg.pepperSecrets + userId ==> |envPepperSecrets| == |cfg.pepperSecrets|;
    assert (envPepperSecrets + userId)[..|envPepperSecrets|] == envPepperSecrets;
    assert (cfg.pepperSecrets + userId)[..|cfg.pepperSecrets|] == cfg.pepperSecrets;
  }

  function V1SettingsHead(cfg: Config, userId: string, db: Db): (r: Response)
    ensures r == Settings.HeadSettings(cfg, userId, db)
  {
    match WrittenReply(db, SettingsKey(cfg, userId))
    case Nil => Empty(404)
    case WrongType => Crash
    case Value(written) => Response(204, NoBody, Some(written), None)
  }

  function V1SettingsGet(cfg: Config, userId: string, ifNoneMatch: string, db: Db): (r: Response)
    ensures r == Settings.GetSettings(cfg, userId, ifNoneMatch, db)
  {
    match FieldsOf(db, SettingsKey(cfg, userId))
    case FieldsWrongType => Crash
    case FieldsOk(value, written) =>
      if value.None? then Empty(404)
      else if written.None? then Crash
      else if ifNoneMatch == written.value then Empty(304)
      else Response(200, Blob(value.value), written, Some(OctetStream))
  }

  /** The size is compared as int64(len(body)) > SIZE_LIMIT; a body length always fits in an int64. */
  method V1SettingsPut(rdb: Redis, cfg: Config, userId: string, contentType: string, body: Bytes, now: int)
    returns (resp: Response)
    modifies rdb
    ensures Outcome(resp, rdb.data) == Settings.PutStep(cfg, userId, contentType, body, now, old(rdb.data))
  {
    if contentType != OctetStream {
      return Settings.WrongContentType;
    }
    var bodyLength := |body|;
    if bodyLength > cfg.sizeLimit {
      return Settings.TooLarge;
    }
    var ok := rdb.HSet(SettingsKey(cfg, userId), body, Decimal(now));
    resp := if ok then Json(WrittenJson(now)) else Crash;
  }

  /** Deletes the settings record only; the secret stays. */
  method V1SettingsDelete(rdb: Redis, cfg: Config, userId: string) returns (resp: Response)
    modifies rdb
    ensures Outcome(resp, rdb.data) == Settings.DeleteStep(cfg, userId, old(rdb.data))
    ensures SecretsKey(cfg, userId) in old(rdb.data) ==> SecretsKey(cfg, userId) in rdb.data
  {
    NamespacesDisjoint(cfg, userId, userId);
    rdb.Del(SettingsKey(cfg, userId));
    resp := Empty(204);
  }

  method V1OauthCallback(rdb: Redis, cfg: Config, code: string, token: ProviderReply, user: ProviderReply,
                         random: RandomReply) returns (resp: Response)
    requires random.RandomBytes? ==> |random.bytes| == 48
    modifies rdb
    ensures Outcome(resp, rdb.data) == OAuth.CallbackStep(cfg, code, token, user, random, old(rdb.data))
  {
    if code == "" {
      return OAuth.MissingCode;
    }
    match token
    case TransportError =>
      return OAuth.TokenRequestFailed;
    case ErrorState =>
      return OAuth.InvalidCode;
    case Success(_) =>
    match user
    case TransportError =>
      return OAuth.UserRequestFailed;
    case ErrorState =>
      return OAuth.UserRequestFailed;
    case Success(userId) =>
    if cfg.allowed.Some? && userId !in cfg.allowed.value {
      return OAuth.NotWhitelisted;
    }
    var key := SecretsKey(cfg, userId);
    var stored := rdb.Get(key);
    if stored.WrongType? {
      return Crash;
    }
    if stored.Value? {
      return Json(SecretJson(stored.s));
    }
    if random.RandomFailed? {
      return OAuth.SecretGenerationFailed;
    }
    var secret := HexEncode(random.bytes);
    rdb.Set(key, secret);
    resp := Json(SecretJson(secret));
  }

  /** Deletes both records, settings first. */
  method V1Delete(rdb: Redis, cfg: Config, userId: string) returns (resp: Response)
    modifies rdb
    ensures Outcome(resp, rdb.data) == Account.EraseStep(cfg, userId, old(rdb.data))
  {
    rdb.Del(SettingsKey(cfg, userId));
    rdb.Del(SecretsKey(cfg, userId));
    resp := Empty(204);
  }

  /** The ping, answered without reading the store. */
  function V1Get(): (r: Response)
    ensures r == Account.Ping()
  {
    Json(PingJson)
  }
}
