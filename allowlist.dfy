/**
 * ALLOWED_USERS: an optional comma-separated list of account ids read
 * once at startup (main.go). An empty or unset value means "no
 * restriction"; otherwise the fields are taken as they are, untrimmed.
 */
module AllowList {
  import opened Wrappers
  import opened Text

  /** The allow-list a raw ALLOWED_USERS value configures. */
  function AllowListOf(raw: string): (allowed: Option<set<string>>)
    ensures allowed.None? <==> raw == ""
    ensures allowed.Some? ==> forall u :: u in allowed.value ==> ',' !in u
  {
    if raw == "" then None else Some(set u | u in Split(raw, ','))
  }

  /** The loop in main: one map insertion per comma-separated field. */
  method ParseAllowedUsers(raw: string) returns (allowed: Option<set<string>>)
    ensures allowed == AllowListOf(raw)
  {
    allowed := None;
    if raw != "" {
      var users: map<string, bool> := map[];
      var fields := Split(raw, ',');
      for i := 0 to |fields|
        invariant users.Keys == set j | 0 <= j < i :: fields[j]
        invariant forall u :: u in users ==> users[u]
      {
        users := users[fields[i] := true];
      }
      assert users.Keys == set u | u in fields by {
        forall u | u in fields ensures u in users.Keys {
          var j :| 0 <= j < |fields| && fields[j] == u;
        }
      }
      allowed := Some(users.Keys);
    }
  }

  /** A list written as fields joined by commas allows exactly those fields. */
  lemma AllowListOfFields(fields: seq<string>)
    requires |fields| >= 1
    requires forall i :: 0 <= i < |fields| ==> ',' !in fields[i]
    requires Join(fields, ',') != ""
    ensures AllowListOf(Join(fields, ',')) == Some(set u | u in fields)
  {
    SplitJoin(fields, ',');
  }

  /**
   * Two fields give exactly those two ids, spaces included: "1, 42"
   * allows "1" and " 42", never "42".
   */
  lemma AllowListOfPair(a: string, b: string)
    requires ',' !in a && ',' !in b
    ensures AllowListOf(a + [','] + b) == Some({a, b})
  {
    SplitPair(a, b, ',');
    assert (set u | u in [a, b]) == {a, b};
  }
}
