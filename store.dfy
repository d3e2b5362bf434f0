/**
 * The Redis store the service talks to, reduced to the commands it issues:
 * GET / SET / DEL on string keys and HGET / HMGET / HSET on the two hash
 * fields "value" and "written" of a settings record.
 */
module Store {
  import opened Wrappers
  import opened Text

  /** What one key holds: a plain string (a bearer secret) or a hash. */
  datatype Entry =
    | Str(s: string)
    | Fields(value: Option<Bytes>, written: Option<string>)

  type Db = map<string, Entry>

  /** Reply to GET or HGET: nil, a string, or a WRONGTYPE error. */
  datatype Reply = Nil | Value(s: string) | WrongType

  /** Reply to HMGET key value written: one optional entry per field. */
  datatype FieldsReply = FieldsOk(value: Option<Bytes>, written: Option<string>) | FieldsWrongType

  /** GET key. */
  function GetReply(db: Db, key: string): (r: Reply)
    ensures r == Nil <==> key !in db
    ensures r.Value? <==> key in db && db[key].Str?
    ensures r.Value? ==> db[key] == Str(r.s)
  {
    if key !in db then Nil
    else match db[key]
      case Str(s) => Value(s)
      case Fields(_, _) => WrongType
  }

  /** HGET key written. */
  function WrittenReply(db: Db, key: string): (r: Reply)
    ensures r == Nil <==> key !in db || (db[key].Fields? && db[key].written.None?)
    ensures r.Value? <==> key in db && db[key].Fields? && db[key].written.Some?
    ensures r.Value? ==> db[key].written == Some(r.s)
    ensures r.WrongType? <==> key in db && db[key].Str?
  {
    if key !in db then Nil
    else match db[key]
      case Str(_) => WrongType
      case Fields(_, written) => if written.Some? then Value(written.value) else Nil
  }

  /** HMGET key value written: an absent key reads as both fields nil. */
  function FieldsOf(db: Db, key: string): (r: FieldsReply)
    ensures key !in db ==> r == FieldsOk(None, None)
    ensures r.FieldsWrongType? <==> key in db && db[key].Str?
    ensures key in db && db[key].Fields? ==> r == FieldsOk(db[key].value, db[key].written)
  {
    if key !in db then FieldsOk(None, None)
    else match db[key]
      case Str(_) => FieldsWrongType
      case Fields(value, written) => FieldsOk(value, written)
  }

  /** The shared store connection (g.RDB / rdb / redis). */
  class Redis {
    var data: Db

    constructor ()
      ensures data == map[]
    {
      data := map[];
    }

    method Get(key: string) returns (r: Reply)
      ensures r == GetReply(data, key)
    {
      r := GetReply(data, key);
    }

    method HGetWritten(key: string) returns (r: Reply)
      ensures r == WrittenReply(data, key)
    {
      r := WrittenReply(data, key);
    }

    method HMGet(key: string) returns (r: FieldsReply)
      ensures r == FieldsOf(data, key)
    {
      r := FieldsOf(data, key);
    }

    /** SET key value: overwrites whatever the key held. */
    method Set(key: string, value: string)
      modifies this
      ensures data == old(data)[key := Str(value)]
    {
      data := data[key := Str(value)];
    }

    /** DEL key: removing an absent key is not an error. */
    method Del(key: string)
      modifies this
      ensures data == old(data) - {key}
    {
      data := data - {key};
    }

    /**
     * HSET key value <v> written <w>: both fields set in one command.
     * On a key that holds a plain string Redis answers WRONGTYPE and
     * nothing changes.
     */
    method HSet(key: string, value: Bytes, written: string) returns (ok: bool)
      modifies this
      ensures ok <==> !(key in old(data) && old(data)[key].Str?)
      ensures ok ==> data == old(data)[key := Fields(Some(value), Some(written))]
      ensures !ok ==> data == old(data)
    {
      ok := !(key in data && data[key].Str?);
      if ok {
        data := data[key := Fields(Some(value), Some(written))];
      }
    }
  }
}
