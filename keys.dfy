/**
 * Configuration and storage keys. An account id never reaches the store
 * in plain text: it is peppered and hashed (SHA-1, hex) into one key per
 * namespace.
 */
module Keys {
  import opened Wrappers
  import opened Text
  import opened Store

  /**
   * Process-wide configuration, read once from the environment.
   * `hash` is SHA-1 rendered as hex; `decode` is standard base64 decoding
   * (RFC 4648, section 4), None when the input is not valid base64.
   * `allowed` is None when ALLOWED_USERS is unset or empty.
   */
  datatype Config = Config(
    hash: string -> string,
    decode: string -> Option<string>,
    pepperSecrets: string,
    pepperSettings: string,
    sizeLimit: int,
    allowed: Option<set<string>>)

  const SecretsPrefix := "secrets:"
  const SettingsPrefix := "settings:"

  function SecretsKey(cfg: Config, userId: string): (k: string)
    ensures HasPrefix(k, SecretsPrefix) && !HasPrefix(k, SettingsPrefix)
  {
    var k := SecretsPrefix + cfg.hash(cfg.pepperSecrets + userId);
    assert k[..|SecretsPrefix|] == SecretsPrefix;
    assert k[2] == 'c';
    k
  }

  function SettingsKey(cfg: Config, userId: string): (k: string)
    ensures HasPrefix(k, SettingsPrefix) && !HasPrefix(k, SecretsPrefix)
  {
    var k := SettingsPrefix + cfg.hash(cfg.pepperSettings + userId);
    assert k[..|SettingsPrefix|] == SettingsPrefix;
    assert k[2] == 't';
    k
  }

  predicate HasPrefix(s: string, prefix: string) {
    |prefix| <= |s| && s[..|prefix|] == prefix
  }

  /** The two namespaces never share a key: "secrets:" and "settings:" differ at index 2. */
  lemma NamespacesDisjoint(cfg: Config, u: string, v: string)
    ensures SecretsKey(cfg, u) != SettingsKey(cfg, v)
  {
  }

  ghost predicate Injective(f: string -> string) {
    forall a, b :: f(a) == f(b) ==> a == b
  }

  /** With a collision-free hash, distinct accounts have distinct keys. */
  lemma KeysSeparateUsers(cfg: Config, u: string, v: string)
    requires Injective(cfg.hash)
    requires u != v
    ensures SecretsKey(cfg, u) != SecretsKey(cfg, v)
    ensures SettingsKey(cfg, u) != SettingsKey(cfg, v)
  {
    PrefixCancels(SecretsPrefix, cfg.hash(cfg.pepperSecrets + u), cfg.hash(cfg.pepperSecrets + v));
    PrefixCancels(cfg.pepperSecrets, u, v);
    PrefixCancels(SettingsPrefix, cfg.hash(cfg.pepperSettings + u), cfg.hash(cfg.pepperSettings + v));
    PrefixCancels(cfg.pepperSettings, u, v);
  }

  lemma PrefixCancels(p: string, a: string, b: string)
    ensures p + a == p + b ==> a == b
  {
    assert (p + a)[|p|..] == a;
    assert (p + b)[|p|..] == b;
  }

  /** A provisioned bearer secret: 48 random bytes as 96 lowercase hex digits. */
  predicate IsSecret(s: string) {
    |s| == 96 && forall i :: 0 <= i < |s| ==> IsHexDigit(s[i])
  }

  /**
   * The shape every handler keeps: a key in the secrets namespace holds a
   * provisioned secret, a key in the settings namespace a hash that has
   * both fields, with a non-empty "written".
   */
  ghost predicate WellFormed(db: Db) {
    forall k :: k in db ==>
      (HasPrefix(k, SecretsPrefix) ==> db[k].Str? && IsSecret(db[k].s)) &&
      (HasPrefix(k, SettingsPrefix) ==>
         db[k].Fields? && db[k].value.Some? && db[k].written.Some? && db[k].written.value != "")
  }

  /** "Nothing else changes": the two stores agree outside `keys`. */
  predicate UnchangedExcept(db: Db, db': Db, keys: set<string>) {
    db - keys == db' - keys
  }
}
