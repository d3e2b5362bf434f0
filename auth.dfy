/**
 * The bearer authenticator of the current service (requireAuth in
 * main.go). The Authorization header carries base64("<secret>:<userId>");
 * the decision reads at most one store key and never writes.
 */
module Auth {
  import opened Wrappers
  import opened Text
  import opened Store
  import opened Http
  import opened Keys

  /** The authenticator either answers the request itself or lets it through with a user id bound. */
  datatype AuthResult = Reject(resp: Response) | Pass(userId: string)

  const MissingAuthorization := Error(401, "Missing authorization")
  const InvalidAuthorization := Error(401, "Invalid authorization")
  const NotWhitelisted := Error(403, "User is not whitelisted")

  /**
   * The allow-list gate: it applies only when a list is configured, and
   * never to the path "/v1" or to any DELETE request.
   */
  predicate Blocked(allowed: Option<set<string>>, path: string, verb: string, userId: string) {
    allowed.Some? && path != "/v1" && verb != "DELETE" && userId !in allowed.value
  }

  /** `header` is a well-formed credential for `secret` and `userId`. */
  ghost predicate Presents(cfg: Config, header: string, secret: string, userId: string) {
    header != "" && ':' !in secret && ':' !in userId &&
    cfg.decode(header) == Some(secret + [':'] + userId)
  }

  function RequireAuth(cfg: Config, req: Request, db: Db): (r: AuthResult)
    ensures req.authorization == "" ==> r == Reject(MissingAuthorization)
    ensures r.Reject? ==> r.resp in {MissingAuthorization, InvalidAuthorization, NotWhitelisted, Crash}
    ensures r == Reject(Crash) ==> !WellFormed(db)
  {
    if req.authorization == "" then Reject(MissingAuthorization)
    else match cfg.decode(req.authorization)
      case None => Reject(InvalidAuthorization)
      case Some(text) =>
        var parts := Split(text, ':');
        if |parts| != 2 then Reject(InvalidAuthorization)
        else
          var secret, userId := parts[0], parts[1];
          if Blocked(cfg.allowed, req.path, req.verb, userId) then Reject(NotWhitelisted)
          else match GetReply(db, SecretsKey(cfg, userId))
            case Nil => Reject(InvalidAuthorization)
            case WrongType => Reject(Crash)
            case Value(stored) => if stored != secret then Reject(InvalidAuthorization) else Pass(userId)
  }

  /** A header that is not base64, or whose text is not exactly two ':'-separated fields, is rejected with 401. */
  lemma MalformedRejected(cfg: Config, req: Request, db: Db)
    requires req.authorization != ""
    requires cfg.decode(req.authorization).None? ||
             multiset(cfg.decode(req.authorization).value)[':'] != 1
    ensures RequireAuth(cfg, req, db) == Reject(InvalidAuthorization)
  {
  }

  /**
   * Success exactly when the header carries "<secret>:<userId>", the gate
   * lets the user through and the stored secret equals the presented one.
   */
  lemma {:induction false} AuthorizedIff(cfg: Config, req: Request, db: Db, userId: string)
    ensures RequireAuth(cfg, req, db) == Pass(userId) <==>
      exists secret :: Presents(cfg, req.authorization, secret, userId) &&
        !Blocked(cfg.allowed, req.path, req.verb, userId) &&
        GetReply(db, SecretsKey(cfg, userId)) == Value(secret)
  {
    if RequireAuth(cfg, req, db) == Pass(userId) {
      var text := cfg.decode(req.authorization).value;
      SplitPairShape(text, ':');
      var secret := Split(text, ':')[0];
      assert Presents(cfg, req.authorization, secret, userId);
    }
    if exists secret :: Presents(cfg, req.authorization, secret, userId) &&
        !Blocked(cfg.allowed, req.path, req.verb, userId) &&
        GetReply(db, SecretsKey(cfg, userId)) == Value(secret) {
      var secret :| Presents(cfg, req.authorization, secret, userId) &&
        !Blocked(cfg.allowed, req.path, req.verb, userId) &&
        GetReply(db, SecretsKey(cfg, userId)) == Value(secret);
      SplitPair(secret, userId, ':');
    }
  }

  /**
   * 403 exactly when a well-formed credential names a user the gate
   * blocks, whatever secret is presented and whatever the store holds.
   */
  lemma {:induction false} ForbiddenIff(cfg: Config, req: Request, db: Db)
    ensures RequireAuth(cfg, req, db) == Reject(NotWhitelisted) <==>
      exists secret, userId :: Presents(cfg, req.authorization, secret, userId) &&
        Blocked(cfg.allowed, req.path, req.verb, userId)
  {
    if RequireAuth(cfg, req, db) == Reject(NotWhitelisted) {
      var text := cfg.decode(req.authorization).value;
      SplitPairShape(text, ':');
      var secret, userId := Split(text, ':')[0], Split(text, ':')[1];
      assert Presents(cfg, req.authorization, secret, userId);
    }
    if exists secret, userId :: Presents(cfg, req.authorization, secret, userId) &&
        Blocked(cfg.allowed, req.path, req.verb, userId) {
      var secret, userId :| Presents(cfg, req.authorization, secret, userId) &&
        Blocked(cfg.allowed, req.path, req.verb, userId);
      SplitPair(secret, userId, ':');
    }
  }

  /** A well-formed credential that passes the gate gets 401 when no secret is stored or it differs. */
  lemma {:induction false} WrongSecretRejected(cfg: Config, req: Request, db: Db, secret: string, userId: string)
    requires Presents(cfg, req.authorization, secret, userId)
    requires !Blocked(cfg.allowed, req.path, req.verb, userId)
    requires WellFormed(db)
    requires GetReply(db, SecretsKey(cfg, userId)) != Value(secret)
    ensures RequireAuth(cfg, req, db) == Reject(InvalidAuthorization)
  {
    SplitPair(secret, userId, ':');
  }

  /**
   * The store is consulted only after the header and the gate: a missing
   * header and a 403 come out the same whatever the store holds.
   */
  lemma StoreReadLast(cfg: Config, req: Request, db1: Db, db2: Db)
    ensures req.authorization == "" ==> RequireAuth(cfg, req, db1) == RequireAuth(cfg, req, db2)
    ensures RequireAuth(cfg, req, db1) == Reject(NotWhitelisted) ==> RequireAuth(cfg, req, db2) == Reject(NotWhitelisted)
  {
  }

  /** The decision depends on the store only through the user's secrets key. */
  lemma {:induction false} DependsOnlyOnSecret(cfg: Config, req: Request, db1: Db, db2: Db)
    requires forall u :: GetReply(db1, SecretsKey(cfg, u)) == GetReply(db2, SecretsKey(cfg, u))
    ensures RequireAuth(cfg, req, db1) == RequireAuth(cfg, req, db2)
  {
    if req.authorization != "" && cfg.decode(req.authorization).Some? {
      var parts := Split(cfg.decode(req.authorization).value, ':');
      if |parts| == 2 {
        assert GetReply(db1, SecretsKey(cfg, parts[1])) == GetReply(db2, SecretsKey(cfg, parts[1]));
      }
    }
  }
}
