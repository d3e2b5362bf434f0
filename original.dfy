/**
 * The original TypeScript service (src/index.ts). Differences from the
 * Go services, all visible in the definitions below: the credential is
 * "<userId>:<secret>" (reversed), base64 decoding never fails, there is
 * no allow-list, no If-None-Match and no HEAD handler, the PUT checks
 * answer 400, and in /callback a stored empty secret counts as absent. An unhandled
 * rejection (a failed fetch, a store error, a failing random source)
 * becomes the framework's 500, modelled as Crash.
 */
module Original {
  import opened Wrappers
  import opened Text
  import opened Store
  import opened Http
  import opened Keys
  import Auth
  import OAuth

  const SettingsRoute := "/settings"

  /** The onRequest hook either skips a route, answers it, or binds request.userId. */
  datatype HookResult = Skipped | HookReject(resp: Response) | Bound(userId: string)

  /**
   * `decode` is Buffer.from(header, "base64").toString("ascii"): lenient,
   * it never fails.
   */
  function AuthHook(cfg: Config, decode: string -> string, routerPath: string, authorization: string, db: Db): (r: HookResult)
    ensures r == Skipped <==> routerPath != SettingsRoute
    ensures routerPath == SettingsRoute && authorization == "" ==> r == HookReject(Auth.MissingAuthorization)
    ensures r.HookReject? ==> r.resp in {Auth.MissingAuthorization, Auth.InvalidAuthorization, Crash}
    ensures r == HookReject(Crash) ==> !WellFormed(db)
    ensures routerPath == SettingsRoute && authorization != "" && |Split(decode(authorization), ':')| != 2 ==>
      r == HookReject(Auth.InvalidAuthorization)
  {
    if routerPath != SettingsRoute then Skipped
    else if authorization == "" then HookReject(Auth.MissingAuthorization)
    else
      var auth := Split(decode(authorization), ':');
      if |auth| != 2 then HookReject(Auth.InvalidAuthorization)
      else
        var userId, secret := auth[0], auth[1];
        match GetReply(db, SecretsKey(cfg, userId))
        case WrongType => HookReject(Crash)
        case Nil => HookReject(Auth.InvalidAuthorization)   // null !== secret
        case Value(stored) => if stored != secret then HookReject(Auth.InvalidAuthorization) else Bound(userId)
  }

  /** The hook binds `userId` exactly when the header carries "<userId>:<secret>" and that secret is stored. */
  lemma {:induction false} HookBindsIff(cfg: Config, decode: string -> string, authorization: string, db: Db, userId: string)
    ensures AuthHook(cfg, decode, SettingsRoute, authorization, db) == Bound(userId) <==>
      authorization != "" &&
      exists secret :: ':' !in userId && ':' !in secret &&
        decode(authorization) == userId + [':'] + secret &&
        GetReply(db, SecretsKey(cfg, userId)) == Value(secret)
  {
    if AuthHook(cfg, decode, SettingsRoute, authorization, db) == Bound(userId) {
      SplitPairShape(decode(authorization), ':');
    }
    if authorization != "" &&
      exists secret :: ':' !in userId && ':' !in secret &&
        decode(authorization) == userId + [':'] + secret &&
        GetReply(db, SecretsKey(cfg, userId)) == Value(secret) {
      var secret :| ':' !in userId && ':' !in secret &&
        decode(authorization) == userId + [':'] + secret &&
        GetReply(db, SecretsKey(cfg, userId)) == Value(secret);
      SplitPair(userId, secret, ':');
    }
  }

  /**
   * On a well-formed store, a two-part credential "<userId>:<secret>"
   * whose secret is not the one stored for userId (or none is stored)
   * is answered 401.
   */
  lemma {:induction false} HookWrongSecretRejected(cfg: Config, decode: string -> string, authorization: string,
                                                   db: Db, userId: string, secret: string)
    requires WellFormed(db) && authorization != ""
    requires ':' !in userId && ':' !in secret && decode(authorization) == userId + [':'] + secret
    requires GetReply(db, SecretsKey(cfg, userId)) != Value(secret)
    ensures AuthHook(cfg, decode, SettingsRoute, authorization, db) == HookReject(Auth.InvalidAuthorization)
  {
    SplitPair(userId, secret, ':');
  }

  /**
   * The same decoded text "a:b" names user b in the Go services and
   * user a here: each side looks up the other field as the secret.
   */
  lemma {:induction false} CredentialOrderReversed(cfg: Config, decode: string -> string, req: Request, db: Db, a: string, b: string)
    requires ':' !in a && ':' !in b && req.authorization != ""
    requires cfg.decode(req.authorization) == Some(a + [':'] + b) && decode(req.authorization) == a + [':'] + b
    requires !Auth.Blocked(cfg.allowed, req.path, req.verb, b)
    ensures Auth.RequireAuth(cfg, req, db) == Auth.Pass(b) <==> GetReply(db, SecretsKey(cfg, b)) == Value(a)
    ensures AuthHook(cfg, decode, SettingsRoute, req.authorization, db) == Bound(a) <==>
      GetReply(db, SecretsKey(cfg, a)) == Value(b)
  {
    SplitPair(a, b, ':');
  }

  /** GET /settings: the blob and its tag, or 404 with a JSON error; no conditional request. */
  function GetSettings(cfg: Config, userId: string, db: Db): (r: Response)
    ensures var key := SettingsKey(cfg, userId);
      && (r == Error(404, "No settings currently synchronized") <==>
            key !in db || (db[key].Fields? && db[key].value.None?))
      && (r.Response? && r.status == 200 ==>
            key in db && db[key].Fields? && db[key].value.Some? &&
            r == Response(200, Blob(db[key].value.value), db[key].written, Some(OctetStream)))
      && (key in db && db[key].Fields? && db[key].value.Some? ==>
            r == Response(200, Blob(db[key].value.value), db[key].written, Some(OctetStream)))
    ensures r.Response? ==> r.status in {200, 404}
    ensures WellFormed(db) ==> !r.Crash?
  {
    match FieldsOf(db, SettingsKey(cfg, userId))
    case FieldsWrongType => Crash
    case FieldsOk(value, written) =>
      if value.None? then Error(404, "No settings currently synchronized")
      else Response(200, Blob(value.value), written, Some(OctetStream))
  }

  const WrongContentType := Error(400, "Content type must be `application/octet-stream`")
  const TooLarge := Error(400, "Settings are too large")

  /** PUT /settings: both rejections answer 400; HMSET writes both fields. */
  function PutStep(cfg: Config, userId: string, contentType: string, body: Bytes, now: int, db: Db): (o: Outcome)
    ensures contentType != OctetStream ==> o == Outcome(WrongContentType, db)
    ensures contentType == OctetStream && |body| > cfg.sizeLimit ==> o == Outcome(TooLarge, db)
    ensures contentType == OctetStream && |body| <= cfg.sizeLimit && WellFormed(db) ==>
      o == Outcome(Json(WrittenJson(now)), db[SettingsKey(cfg, userId) := Fields(Some(body), Some(Decimal(now)))])
    ensures UnchangedExcept(db, o.db, {SettingsKey(cfg, userId)})
    ensures WellFormed(db) ==> WellFormed(o.db) && !o.resp.Crash?
  {
    var key := SettingsKey(cfg, userId);
    if contentType != OctetStream then Outcome(WrongContentType, db)
    else if |body| > cfg.sizeLimit then Outcome(TooLarge, db)
    else if key in db && db[key].Str? then Outcome(Crash, db)
    else Outcome(Json(WrittenJson(now)), db[key := Fields(Some(body), Some(Decimal(now)))])
  }

  method PutSettings(rdb: Redis, cfg: Config, userId: string, contentType: string, body: Bytes, now: int)
    returns (resp: Response)
    modifies rdb
    ensures Outcome(resp, rdb.data) == PutStep(cfg, userId, contentType, body, now, old(rdb.data))
  {
    if contentType != OctetStream {
      return WrongContentType;
    }
    if |body| > cfg.sizeLimit {
      return TooLarge;
    }
    var ok := rdb.HSet(SettingsKey(cfg, userId), body, Decimal(now));
    resp := if ok then Json(WrittenJson(now)) else Crash;
  }

  /** DELETE /settings: the settings record only. */
  method DeleteSettings(rdb: Redis, cfg: Config, userId: string) returns (resp: Response)
    modifies rdb
    ensures resp == Empty(204) && rdb.data == old(rdb.data) - {SettingsKey(cfg, userId)}
  {
    rdb.Del(SettingsKey(cfg, userId));
    resp := Empty(204);
  }

  /** The round trip holds here too: GET returns exactly the bytes put, tagged with the write time. */
  lemma PutThenGet(cfg: Config, userId: string, body: Bytes, now: int, db: Db)
    requires WellFormed(db) && |body| <= cfg.sizeLimit
    ensures var o := PutStep(cfg, userId, OctetStream, body, now, db);
      && o.resp == Json(WrittenJson(now))
      && GetSettings(cfg, userId, o.db) == Response(200, Blob(body), Some(Decimal(now)), Some(OctetStream))
  {
  }

  const MissingCode := Error(400, "Missing code")
  const InvalidCode := Error(400, "Invalid code")
  const UserRequestFailed := Error(500, "Failed to get user")

  /** GET /callback: no allow-list; a stored secret that is empty is replaced. */
  function CallbackStep(cfg: Config, code: string, token: ProviderReply, user: ProviderReply,
                        random: RandomReply, db: Db): (o: Outcome)
    requires random.RandomBytes? ==> |random.bytes| == 48
    ensures code == "" ==> o == Outcome(MissingCode, db)
    ensures code != "" && token.ErrorState? ==> o == Outcome(InvalidCode, db)
    ensures code != "" && token.Success? && user.ErrorState? ==> o == Outcome(UserRequestFailed, db)
    ensures o.db != db ==>
      (exists userId :: user == Success(userId) && random.RandomBytes? &&
         o == Outcome(Json(SecretJson(HexEncode(random.bytes))), db[SecretsKey(cfg, userId) := Str(HexEncode(random.bytes))]))
    ensures o.resp.Response? && o.resp.body.SecretJson? ==>
      (exists userId :: user == Success(userId) &&
         GetReply(o.db, SecretsKey(cfg, userId)) == Value(o.resp.body.secret))
    ensures (code != "" && token.Success? && user.Success? &&
             GetReply(db, SecretsKey(cfg, user.value)).Value? && GetReply(db, SecretsKey(cfg, user.value)).s != "") ==>
      o == Outcome(Json(SecretJson(GetReply(db, SecretsKey(cfg, user.value)).s)), db)
    ensures WellFormed(db) && !token.TransportError? && !user.TransportError? && !random.RandomFailed? ==>
      WellFormed(o.db) && !o.resp.Crash?
  {
    if code == "" then Outcome(MissingCode, db)
    else match token
      case TransportError => Outcome(Crash, db)
      case ErrorState => Outcome(InvalidCode, db)
      case Success(_) =>
        match user
        case TransportError => Outcome(Crash, db)
        case ErrorState => Outcome(UserRequestFailed, db)
        case Success(userId) =>
          var key := SecretsKey(cfg, userId);
          var stored := GetReply(db, key);
          if stored.WrongType? then Outcome(Crash, db)
          else if stored.Value? && stored.s != "" then Outcome(Json(SecretJson(stored.s)), db)
          else   // null, or the empty string
            match random
            case RandomFailed => Outcome(Crash, db)
            case RandomBytes(bytes) =>
              var secret := HexEncode(bytes);
              Outcome(Json(SecretJson(secret)), db[key := Str(secret)])
  }

  method Callback(rdb: Redis, cfg: Config, code: string, token: ProviderReply, user: ProviderReply,
                  random: RandomReply) returns (resp: Response)
    requires random.RandomBytes? ==> |random.bytes| == 48
    modifies rdb
    ensures Outcome(resp, rdb.data) == CallbackStep(cfg, code, token, user, random, old(rdb.data))
  {
    if code == "" {
      return MissingCode;
    }
    if token.TransportError? {
      return Crash;
    }
    if token.ErrorState? {
      return InvalidCode;
    }
    if user.TransportError? {
      return Crash;
    }
    if user.ErrorState? {
      return UserRequestFailed;
    }
    var key := SecretsKey(cfg, user.value);
    var stored := rdb.Get(key);
    if stored.WrongType? {
      return Crash;
    }
    if stored.Value? && stored.s != "" {
      return Json(SecretJson(stored.s));
    }
    if random.RandomFailed? {
      return Crash;
    }
    var secret := HexEncode(random.bytes);
    rdb.Set(key, secret);
    resp := Json(SecretJson(secret));
  }

  /**
   * On a well-formed store, with no allow-list and no failed call, the
   * original link flow stores and answers the same as the current one;
   * only the 500 message for a refused user lookup differs.
   */
  lemma {:induction false} CallbackVariantsAgree(cfg: Config, code: string, token: ProviderReply, user: ProviderReply,
                                                 random: RandomReply, db: Db)
    requires random.RandomBytes? ==> |random.bytes| == 48
    requires WellFormed(db) && cfg.allowed.None?
    requires !token.TransportError? && !user.TransportError? && !random.RandomFailed?
    ensures var ours := CallbackStep(cfg, code, token, user, random, db);
      var current := OAuth.CallbackStep(cfg, code, token, user, random, db);
      && ours.db == current.db
      && (ours.resp == current.resp || (ours.resp == UserRequestFailed && current.resp == OAuth.UserRequestFailed))
  {
    if code != "" && token.Success? && user.Success? {
      var key := SecretsKey(cfg, user.value);
      if key in db {
        assert IsSecret(db[key].s);
      }
    }
  }
}
