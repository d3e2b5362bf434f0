/**
 * The settings endpoints of the current service (routes/settings.go):
 * one opaque blob per account under "settings:" + hash, with the write
 * time as its entity tag. HEAD and GET read a snapshot of the store; PUT
 * and DELETE change it in place.
 */
module Settings {
  import opened Wrappers
  import opened Text
  import opened Store
  import opened Http
  import opened Keys

  const WrongContentType := Error(415, "Content type must be application/octet-stream")
  const TooLarge := Error(413, "Settings are too large")

  /** HEAD: only the validator travels, never the blob. */
  function HeadSettings(cfg: Config, userId: string, db: Db): (r: Response)
    ensures var key := SettingsKey(cfg, userId);
      && (r == Empty(404) <==> key !in db || (db[key].Fields? && db[key].written.None?))
      && (r.Crash? <==> key in db && db[key].Str?)
      && (r.Response? && r.status == 204 ==>
            key in db && db[key].Fields? && r == Response(204, NoBody, db[key].written, None))
      && (key in db && db[key].Fields? && db[key].written.Some? ==>
            r == Response(204, NoBody, db[key].written, None))
    ensures r.Response? ==> r.body == NoBody
    ensures WellFormed(db) ==> !r.Crash?
  {
    match WrittenReply(db, SettingsKey(cfg, userId))
    case Nil => Empty(404)
    case WrongType => Crash
    case Value(written) => Response(204, NoBody, Some(written), None)
  }

  /** GET: the stored bytes with their validator, or 304 when the client already has them. */
  function GetSettings(cfg: Config, userId: string, ifNoneMatch: string, db: Db): (r: Response)
    ensures var key := SettingsKey(cfg, userId);
      && (r == Empty(404) <==> key !in db || (db[key].Fields? && db[key].value.None?))
      && (r == Empty(304) <==>
            key in db && db[key].Fields? && db[key].value.Some? && db[key].written == Some(ifNoneMatch))
      && (r.Response? && r.status == 200 ==>
            key in db && db[key].Fields? && db[key].value.Some? && db[key].written.Some? &&
            db[key].written.value != ifNoneMatch &&
            r == Response(200, Blob(db[key].value.value), db[key].written, Some(OctetStream)))
      && (key in db && db[key].Fields? && db[key].value.Some? && db[key].written.Some? &&
          db[key].written.value != ifNoneMatch ==>
            r == Response(200, Blob(db[key].value.value), db[key].written, Some(OctetStream)))
    ensures r.Response? ==> r.status in {200, 304, 404}
    ensures WellFormed(db) ==> !r.Crash?
  {
    match FieldsOf(db, SettingsKey(cfg, userId))
    case FieldsWrongType => Crash
    case FieldsOk(value, written) =>
      if value.None? then Empty(404)
      else if written.None? then Crash   // settings[1].(string) on a nil field
      else if ifNoneMatch == written.value then Empty(304)
      else Response(200, Blob(value.value), written, Some(OctetStream))
  }

  /** PUT: content type first, then size, then both fields replaced in one HSET. */
  function PutStep(cfg: Config, userId: string, contentType: string, body: Bytes, now: int, db: Db): (o: Outcome)
    ensures contentType != OctetStream ==> o == Outcome(WrongContentType, db)
    ensures contentType == OctetStream && |body| > cfg.sizeLimit ==> o == Outcome(TooLarge, db)
    ensures contentType == OctetStream && |body| <= cfg.sizeLimit && WellFormed(db) ==>
      o == Outcome(Json(WrittenJson(now)), db[SettingsKey(cfg, userId) := Fields(Some(body), Some(Decimal(now)))])
    ensures UnchangedExcept(db, o.db, {SettingsKey(cfg, userId)})
    ensures WellFormed(db) ==> WellFormed(o.db) && !o.resp.Crash?
  {
    var key := SettingsKey(cfg, userId);
    if contentType != OctetStream then Outcome(WrongContentType, db)
    else if |body| > cfg.sizeLimit then Outcome(TooLarge, db)
    else if key in db && db[key].Str? then Outcome(Crash, db)  // WRONGTYPE
    else Outcome(Json(WrittenJson(now)), db[key := Fields(Some(body), Some(Decimal(now)))])
  }

  /** DELETE: the record is gone, whether or not it existed. */
  function DeleteStep(cfg: Config, userId: string, db: Db): (o: Outcome)
    ensures o.resp == Empty(204)
    ensures SettingsKey(cfg, userId) !in o.db
    ensures UnchangedExcept(db, o.db, {SettingsKey(cfg, userId)})
    ensures WellFormed(db) ==> WellFormed(o.db)
  {
    Outcome(Empty(204), db - {SettingsKey(cfg, userId)})
  }

  /** HEAD on the live store: one HGET of the `written` field. */
  method ReadHead(rdb: Redis, cfg: Config, userId: string) returns (resp: Response)
    ensures resp == HeadSettings(cfg, userId, rdb.data)
  {
    var written := rdb.HGetWritten(SettingsKey(cfg, userId));
    match written
    case Nil => resp := Empty(404);
    case WrongType => resp := Crash;
    case Value(w) => resp := Response(204, NoBody, Some(w), None);
  }

  /** GET on the live store: one HMGET of both fields. */
  method ReadSettings(rdb: Redis, cfg: Config, userId: string, ifNoneMatch: string) returns (resp: Response)
    ensures resp == GetSettings(cfg, userId, ifNoneMatch, rdb.data)
  {
    var fields := rdb.HMGet(SettingsKey(cfg, userId));
    if fields.FieldsWrongType? {
      return Crash;
    }
    if fields.value.None? {
      return Empty(404);
    }
    if fields.written.None? {
      return Crash;
    }
    if ifNoneMatch == fields.written.value {
      return Empty(304);
    }
    resp := Response(200, Blob(fields.value.value), fields.written, Some(OctetStream));
  }

  method PutSettings(rdb: Redis, cfg: Config, userId: string, contentType: string, body: Bytes, now: int)
    returns (resp: Response)
    modifies rdb
    ensures Outcome(resp, rdb.data) == PutStep(cfg, userId, contentType, body, now, old(rdb.data))
  {
    if contentType != OctetStream {
      return WrongContentType;
    }
    if |body| > cfg.sizeLimit {
      return TooLarge;
    }
    var ok := rdb.HSet(SettingsKey(cfg, userId), body, Decimal(now));
    if !ok {
      return Crash;
    }
    resp := Json(WrittenJson(now));
  }

  method DeleteSettings(rdb: Redis, cfg: Config, userId: string) returns (resp: Response)
    modifies rdb
    ensures Outcome(resp, rdb.data) == DeleteStep(cfg, userId, old(rdb.data))
  {
    rdb.Del(SettingsKey(cfg, userId));
    resp := Empty(204);
  }

  // ---------------------------------------------------------------------
  // Properties relating several requests
  // ---------------------------------------------------------------------

  /**
   * Round trip: after an accepted PUT, GET returns exactly the bytes put,
   * tagged with the returned timestamp, and 304 when that tag is sent back;
   * HEAD reports the same tag.
   */
  lemma PutThenGet(cfg: Config, userId: string, body: Bytes, now: int, ifNoneMatch: string, db: Db)
    requires WellFormed(db) && |body| <= cfg.sizeLimit
    ensures var o := PutStep(cfg, userId, OctetStream, body, now, db);
      && o.resp == Json(WrittenJson(now))
      && HeadSettings(cfg, userId, o.db) == Response(204, NoBody, Some(Decimal(now)), None)
      && GetSettings(cfg, userId, ifNoneMatch, o.db) ==
           if ifNoneMatch == Decimal(now) then Empty(304)
           else Response(200, Blob(body), Some(Decimal(now)), Some(OctetStream))
  {
  }

  /** A validator from any other write time is stale and gets the current blob. */
  lemma StaleValidatorGetsBlob(cfg: Config, userId: string, body: Bytes, now: int, earlier: int, db: Db)
    requires WellFormed(db) && |body| <= cfg.sizeLimit && earlier != now
    ensures GetSettings(cfg, userId, Decimal(earlier), PutStep(cfg, userId, OctetStream, body, now, db).db) ==
      Response(200, Blob(body), Some(Decimal(now)), Some(OctetStream))
  {
    if Decimal(earlier) == Decimal(now) {
      DecimalInjective(earlier, now);
    }
  }

  /** Without If-None-Match a well-formed record is always sent, never 304. */
  lemma NoValidatorNoNotModified(cfg: Config, userId: string, db: Db)
    requires WellFormed(db)
    ensures GetSettings(cfg, userId, "", db) != Empty(304)
  {
  }

  /** A rejected PUT leaves what GET and HEAD see untouched. */
  lemma RejectedPutKeepsRecord(cfg: Config, userId: string, contentType: string, body: Bytes, now: int, ifNoneMatch: string, db: Db)
    requires contentType != OctetStream || |body| > cfg.sizeLimit
    ensures var o := PutStep(cfg, userId, contentType, body, now, db);
      && o.resp in {WrongContentType, TooLarge}
      && GetSettings(cfg, userId, ifNoneMatch, o.db) == GetSettings(cfg, userId, ifNoneMatch, db)
      && HeadSettings(cfg, userId, o.db) == HeadSettings(cfg, userId, db)
  {
  }

  /** After DELETE, HEAD and GET report 404; a second DELETE changes nothing. */
  lemma DeleteThenRead(cfg: Config, userId: string, ifNoneMatch: string, db: Db)
    ensures var o := DeleteStep(cfg, userId, db);
      && HeadSettings(cfg, userId, o.db) == Empty(404)
      && GetSettings(cfg, userId, ifNoneMatch, o.db) == Empty(404)
      && DeleteStep(cfg, userId, o.db) == o
  {
  }

  /** PUT and DELETE never touch any key of the secrets namespace. */
  lemma {:induction false} SecretsUntouched(cfg: Config, userId: string, contentType: string, body: Bytes, now: int, db: Db, other: string)
    ensures var k := SecretsKey(cfg, other);
      && GetReply(PutStep(cfg, userId, contentType, body, now, db).db, k) == GetReply(db, k)
      && GetReply(DeleteStep(cfg, userId, db).db, k) == GetReply(db, k)
  {
    var k := SecretsKey(cfg, other);
    NamespacesDisjoint(cfg, other, userId);
    var o := PutStep(cfg, userId, contentType, body, now, db);
    assert (k in db <==> k in db - {SettingsKey(cfg, userId)}) && (k in o.db <==> k in o.db - {SettingsKey(cfg, userId)});
  }

  /** With a collision-free hash, one user's PUT is invisible to every other user. */
  lemma {:induction false} PutIsolated(cfg: Config, userId: string, other: string, contentType: string, body: Bytes, now: int, ifNoneMatch: string, db: Db)
    requires Injective(cfg.hash) && other != userId
    ensures var o := PutStep(cfg, userId, contentType, body, now, db);
      && GetSettings(cfg, other, ifNoneMatch, o.db) == GetSettings(cfg, other, ifNoneMatch, db)
      && HeadSettings(cfg, other, o.db) == HeadSettings(cfg, other, db)
  {
    KeysSeparateUsers(cfg, userId, other);
    var k := SettingsKey(cfg, other);
    var o := PutStep(cfg, userId, contentType, body, now, db);
    assert (k in db <==> k in db - {SettingsKey(cfg, userId)}) && (k in o.db <==> k in o.db - {SettingsKey(cfg, userId)});
  }
}
