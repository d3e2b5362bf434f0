/**
 * The route table of the current service (main.go): every method on
 * /v1/settings and DELETE /v1 pass through requireAuth first; GET /v1 is
 * open. The OAuth routes, the root redirect and the metrics endpoint take
 * inputs this function does not have and are answered elsewhere.
 */
module Server {
  import opened Wrappers
  import opened Text
  import opened Store
  import opened Http
  import opened Keys
  import opened Auth
  import opened Settings
  import opened Account

  const SettingsPath := "/v1/settings"
  const RootPath := "/v1"

  /** The answer to one request, or None for a request this table does not route to a modelled handler. */
  function ServeStep(cfg: Config, req: Request, now: int, db: Db): (o: Option<Outcome>)
    ensures ((req.path == SettingsPath || (req.path == RootPath && req.verb == "DELETE")) &&
             RequireAuth(cfg, req, db).Reject?) ==> o == Some(Outcome(RequireAuth(cfg, req, db).resp, db))
    ensures req.path == RootPath && req.verb == "GET" ==> o == Some(Outcome(Ping(), db))
    ensures req.path == SettingsPath && RequireAuth(cfg, req, db).Pass? ==>
      var u := RequireAuth(cfg, req, db).userId;
      && (req.verb == "HEAD" ==> o == Some(Outcome(HeadSettings(cfg, u, db), db)))
      && (req.verb == "GET" ==> o == Some(Outcome(GetSettings(cfg, u, req.ifNoneMatch, db), db)))
      && (req.verb == "PUT" ==> o == Some(PutStep(cfg, u, req.contentType, req.body, now, db)))
      && (req.verb == "DELETE" ==> o == Some(DeleteStep(cfg, u, db)))
      && (req.verb !in {"HEAD", "GET", "PUT", "DELETE"} ==> o == None)
    ensures req.path == RootPath && req.verb == "DELETE" && RequireAuth(cfg, req, db).Pass? ==>
      o == Some(EraseStep(cfg, RequireAuth(cfg, req, db).userId, db))
    ensures req.path != SettingsPath && !(req.path == RootPath && req.verb in {"GET", "DELETE"}) ==> o == None
    ensures o.Some? && o.value.db != db ==>
      RequireAuth(cfg, req, db).Pass? &&
      UnchangedExcept(db, o.value.db, {SettingsKey(cfg, RequireAuth(cfg, req, db).userId),
                                       SecretsKey(cfg, RequireAuth(cfg, req, db).userId)})
    ensures o.Some? && WellFormed(db) ==> WellFormed(o.value.db) && !o.value.resp.Crash?
  {
    if req.path == SettingsPath then
      match RequireAuth(cfg, req, db)
      case Reject(resp) => Some(Outcome(resp, db))
      case Pass(userId) =>
        if req.verb == "HEAD" then Some(Outcome(HeadSettings(cfg, userId, db), db))
        else if req.verb == "GET" then Some(Outcome(GetSettings(cfg, userId, req.ifNoneMatch, db), db))
        else if req.verb == "PUT" then Some(PutStep(cfg, userId, req.contentType, req.body, now, db))
        else if req.verb == "DELETE" then Some(DeleteStep(cfg, userId, db))
        else None   // no handler after c.Next(): fiber's own 404
    else if req.path == RootPath && req.verb == "DELETE" then
      match RequireAuth(cfg, req, db)
      case Reject(resp) => Some(Outcome(resp, db))
      case Pass(userId) => Some(EraseStep(cfg, userId, db))
    else if req.path == RootPath && req.verb == "GET" then Some(Outcome(Ping(), db))
    else None
  }

  /** Dispatch on the live store: the authenticator, then the handler it lets through. */
  method Handle(rdb: Redis, cfg: Config, req: Request, now: int) returns (handled: bool, resp: Response)
    modifies rdb
    ensures handled == ServeStep(cfg, req, now, old(rdb.data)).Some?
    ensures handled ==> ServeStep(cfg, req, now, old(rdb.data)) == Some(Outcome(resp, rdb.data))
    ensures !handled ==> rdb.data == old(rdb.data)
  {
    handled, resp := false, Crash;
    if req.path == RootPath && req.verb == "GET" {
      return true, Ping();
    }
    var isErase := req.path == RootPath && req.verb == "DELETE";
    if req.path != SettingsPath && !isErase {
      return;
    }
    var auth := RequireAuth(cfg, req, rdb.data);
    if auth.Reject? {
      return true, auth.resp;
    }
    var userId := auth.userId;
    if isErase {
      resp := EraseAccount(rdb, cfg, userId);
    } else if req.verb == "HEAD" {
      resp := ReadHead(rdb, cfg, userId);
    } else if req.verb == "GET" {
      resp := ReadSettings(rdb, cfg, userId, req.ifNoneMatch);
    } else if req.verb == "PUT" {
      resp := PutSettings(rdb, cfg, userId, req.contentType, req.body, now);
    } else if req.verb == "DELETE" {
      resp := DeleteSettings(rdb, cfg, userId);
    } else {
      return;
    }
    handled := true;
  }

  // ---------------------------------------------------------------------
  // End-to-end properties
  // ---------------------------------------------------------------------

  /** The settings handlers never change what the authenticator decides. */
  lemma {:induction false} SettingsKeepAuth(cfg: Config, req: Request, now: int, db: Db, later: Request)
    requires req.path == SettingsPath
    requires ServeStep(cfg, req, now, db).Some?
    ensures RequireAuth(cfg, later, ServeStep(cfg, req, now, db).value.db) == RequireAuth(cfg, later, db)
  {
    var db' := ServeStep(cfg, req, now, db).value.db;
    if RequireAuth(cfg, req, db).Pass? {
      var userId := RequireAuth(cfg, req, db).userId;
      forall u ensures GetReply(db', SecretsKey(cfg, u)) == GetReply(db, SecretsKey(cfg, u)) {
        SecretsUntouched(cfg, userId, req.contentType, req.body, now, db, u);
      }
      DependsOnlyOnSecret(cfg, later, db', db);
    }
  }

  /**
   * Allow-list {"1234"}: the valid credential of user "5678" is refused
   * on /v1/settings with 403 and nothing changes, but the same credential
   * may still erase the account through DELETE /v1.
   */
  lemma {:induction false} ErasureIsNotGated(cfg: Config, secret: string, header: string, now: int, db: Db)
    requires cfg.allowed == Some({"1234"})
    requires Presents(cfg, header, secret, "5678")
    requires GetReply(db, SecretsKey(cfg, "5678")) == Value(secret)
    ensures ServeStep(cfg, Request("GET", SettingsPath, header, "", "", []), now, db) ==
      Some(Outcome(NotWhitelisted, db))
    ensures ServeStep(cfg, Request("DELETE", RootPath, header, "", "", []), now, db) ==
      Some(EraseStep(cfg, "5678", db))
  {
    SplitPair(secret, "5678", ':');
    assert "5678" != "1234";
  }

  /**
   * After a successful DELETE /v1, every later request on /v1/settings
   * bearing the erased user's credential is refused: 401, or 403 where
   * the allow-list blocks that user anyway.
   */
  lemma {:induction false} ErasedAccountLockedOut(cfg: Config, req: Request, now: int, db: Db, secret: string, userId: string, later: Request, now2: int)
    requires req.path == RootPath && req.verb == "DELETE"
    requires RequireAuth(cfg, req, db) == Pass(userId)
    requires later.path == SettingsPath && Presents(cfg, later.authorization, secret, userId)
    ensures var db' := ServeStep(cfg, req, now, db).value.db;
      && RequireAuth(cfg, later, db').Reject?
      && RequireAuth(cfg, later, db').resp in {InvalidAuthorization, NotWhitelisted}
      && ServeStep(cfg, later, now2, db') == Some(Outcome(RequireAuth(cfg, later, db').resp, db'))
  {
    var db' := ServeStep(cfg, req, now, db).value.db;
    assert db' == EraseStep(cfg, userId, db).db;
    SplitPair(secret, userId, ':');
  }

  /**
   * The sync scenario: PUT of the four bytes DE AD BE EF with a 1024-byte
   * limit answers {"written": T}; GET with If-None-Match T answers 304,
   * and with the stale tag "0" the bytes come back tagged T.
   */
  lemma {:induction false} SyncScenario(cfg: Config, header: string, now: int, db: Db)
    requires cfg.sizeLimit == 1024 && WellFormed(db) && now != 0
    requires RequireAuth(cfg, Request("PUT", SettingsPath, header, "", OctetStream, [0xDE, 0xAD, 0xBE, 0xEF]), db).Pass?
    ensures var put := Request("PUT", SettingsPath, header, "", OctetStream, [0xDE, 0xAD, 0xBE, 0xEF]);
      var o := ServeStep(cfg, put, now, db).value;
      && o.resp == Json(WrittenJson(now))
      && ServeStep(cfg, Request("GET", SettingsPath, header, Decimal(now), "", []), now, o.db).value.resp == Empty(304)
      && ServeStep(cfg, Request("GET", SettingsPath, header, "0", "", []), now, o.db).value.resp ==
           Response(200, Blob([0xDE, 0xAD, 0xBE, 0xEF]), Some(Decimal(now)), Some(OctetStream))
  {
    var body: Bytes := [0xDE, 0xAD, 0xBE, 0xEF];
    var put := Request("PUT", SettingsPath, header, "", OctetStream, body);
    var userId := RequireAuth(cfg, put, db).userId;
    var o := ServeStep(cfg, put, now, db).value;
    assert o == PutStep(cfg, userId, OctetStream, body, now, db);
    var get1 := Request("GET", SettingsPath, header, Decimal(now), "", []);
    var get2 := Request("GET", SettingsPath, header, "0", "", []);
    SettingsKeepAuth(cfg, put, now, db, get1);
    SettingsKeepAuth(cfg, put, now, db, get2);
    assert RequireAuth(cfg, get1, db) == RequireAuth(cfg, put, db);
    assert RequireAuth(cfg, get2, db) == RequireAuth(cfg, put, db);
    PutThenGet(cfg, userId, body, now, Decimal(now), db);
    assert Decimal(0) == "0";
    StaleValidatorGetsBlob(cfg, userId, body, now, 0, db);
  }
}
