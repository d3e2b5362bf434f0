/**
 * The account root of the current service (routes/root.go): DELETE /v1
 * erases both records of the caller; GET /v1 answers a constant ping.
 */
module Account {
  import opened Wrappers
  import opened Text
  import opened Store
  import opened Http
  import opened Keys
  import opened Auth
  import opened Settings

  /** GET /v1: a 200 JSON {"ping": "pong"}; it reads nothing, so it cannot fail. */
  function Ping(): (r: Response)
    ensures r.Response? && r.status == 200 && r.body == PingJson
    ensures r.contentType == Some(ApplicationJson) && r.etag.None?
  {
    Json(PingJson)
  }

  /** DELETE /v1: both records go, and the answer is 204 either way. */
  function EraseStep(cfg: Config, userId: string, db: Db): (o: Outcome)
    ensures o.resp == Empty(204)
    ensures SettingsKey(cfg, userId) !in o.db && SecretsKey(cfg, userId) !in o.db
    ensures UnchangedExcept(db, o.db, {SettingsKey(cfg, userId), SecretsKey(cfg, userId)})
    ensures WellFormed(db) ==> WellFormed(o.db)
  {
    Outcome(Empty(204), db - {SettingsKey(cfg, userId)} - {SecretsKey(cfg, userId)})
  }

  method EraseAccount(rdb: Redis, cfg: Config, userId: string) returns (resp: Response)
    modifies rdb
    ensures Outcome(resp, rdb.data) == EraseStep(cfg, userId, old(rdb.data))
  {
    rdb.Del(SettingsKey(cfg, userId));
    rdb.Del(SecretsKey(cfg, userId));
    resp := Empty(204);
  }

  /** Erasing twice is erasing once. */
  lemma EraseIdempotent(cfg: Config, userId: string, db: Db)
    ensures var o := EraseStep(cfg, userId, db); EraseStep(cfg, userId, o.db) == o
  {
  }

  /** After erasure the settings endpoints report "absent". */
  lemma EraseClearsSettings(cfg: Config, userId: string, ifNoneMatch: string, db: Db)
    ensures var db' := EraseStep(cfg, userId, db).db;
      HeadSettings(cfg, userId, db') == Empty(404) && GetSettings(cfg, userId, ifNoneMatch, db') == Empty(404)
  {
  }

  /**
   * After erasure the old credential is dead: any request presenting it
   * that the allow-list gate lets through is answered 401.
   */
  lemma {:induction false} EraseLocksOut(cfg: Config, userId: string, secret: string, req: Request, db: Db)
    requires Presents(cfg, req.authorization, secret, userId)
    requires !Blocked(cfg.allowed, req.path, req.verb, userId)
    ensures RequireAuth(cfg, req, EraseStep(cfg, userId, db).db) == Reject(InvalidAuthorization)
  {
    SplitPair(secret, userId, ':');
  }

  /** With a collision-free hash, erasing one account leaves every other account's records alone. */
  lemma {:induction false} EraseIsolated(cfg: Config, userId: string, other: string, db: Db)
    requires Injective(cfg.hash) && other != userId
    ensures var db' := EraseStep(cfg, userId, db).db;
      && GetReply(db', SecretsKey(cfg, other)) == GetReply(db, SecretsKey(cfg, other))
      && FieldsOf(db', SettingsKey(cfg, other)) == FieldsOf(db, SettingsKey(cfg, other))
  {
    KeysSeparateUsers(cfg, userId, other);
    NamespacesDisjoint(cfg, userId, other);
    NamespacesDisjoint(cfg, other, userId);
  }
}
