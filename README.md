# Vencloud account service: a Dafny model

Vencloud is the backend of the Vencord client mod. A user links a Discord
account and receives a bearer secret. With it the user stores one opaque
settings blob and reads it back. The tag on the blob is the write time
(ETag / If-None-Match), and the user can erase the whole account. This
project models the request-decision and store-update rules of the three
variants of that service:

- the current Go service (`main.go`, `routes/*.go`);
- the older Go service (`Handlers/Handlers.go`);
- the original TypeScript service (`src/index.ts`).

All three run over one abstract Redis.

- **Store** (`store.dfy`): the class `Redis`, whose field holds a map from keys to
  either a plain string (a secret) or a hash with the optional fields `value`
  (bytes) and `written` (string). Its methods are the commands the
  service issues (GET, SET, DEL, HGET, HMGET, HSET). WRONGTYPE replies are
  modelled, because the handlers panic on them.
- **Keys** (`keys.dfy`): `"secrets:" + Hash(PEPPER_SECRETS + id)` and
  `"settings:" + Hash(PEPPER_SETTINGS + id)`. `Hash` (SHA-1 as hex) and
  base64 decoding are function-valued fields of the configuration. The
  invariant `WellFormed` says that secrets keys hold 96-digit lowercase hex
  secrets and settings keys hold hashes with both fields. Every handler
  preserves it.
- **Bearer authenticator** (`auth.dfy`, `legacy.dfy`, `original.dfy`): a pure
  decision over the header, the route and one store read. The result is 401, 403, a crash, or
  the bound user id.
- **Allow-list** (`allowlist.dfy`): ALLOWED_USERS parsed by a loop over the
  comma-separated fields.
- **Settings store** (`settings.dfy`): HEAD and GET are pure functions of a store
  snapshot. PUT and DELETE are methods that change the `Redis` object. Each
  is proved equal to a step function. Lemmas about the step functions state
  the round trips, idempotence and isolation.
- **Identity linker** (`oauth.dfy`): the validation chain of the OAuth callback,
  then create-if-absent provisioning of the secret. Discord's two answers
  and the random source are inputs.
- **Account eraser and route table** (`account.dfy`, `server.dfy`): DELETE /v1,
  the ping, and the dispatcher that puts `requireAuth` in front of `/v1/settings`
  (all methods) and `DELETE /v1`.

Responses are values of `Http.Response`: a status, a body, an ETag and a
content type. `Crash` stands for a Go panic, or for an unhandled rejection in the
TypeScript service, which the framework turns into a 500.

Some facts about the code that a reader might not expect:

- A freshly minted secret is the hex of 48 random bytes: 96 characters.
- The allow-list exemption in `requireAuth` covers the path `/v1` and also
  every DELETE request, so `DELETE /v1/settings` is exempt too.
- `written` is not guaranteed to increase: two PUTs in the same millisecond
  store the same tag.

## Model

| member | source | states |
|---|---|---|
| Text.Split | main.go:59-62 | strings.Split on one separator: count of pieces is one more than the separators in the text, and no piece contains the separator |
| Text.JoinSplit | main.go:60 | splitting loses nothing: the pieces joined with the separator give the text back |
| Text.SplitJoin | main.go:106 | Split inverts Join whenever no field contains the separator |
| Text.SplitPair | main.go:60-69 | "a:b" with colon-free a and b splits into exactly [a, b] |
| Text.SplitPairShape | main.go:62-69 | a text that splits into two pieces is exactly piece0 ":" piece1 |
| Text.HexEncode | routes/discord.go:101 | lowercase hex: two digits 0-9a-f per byte |
| Text.HexRoundTrip | routes/discord.go:101 | hex encoding is decoded back to the same bytes |
| Text.HexInjective | routes/discord.go:101 | different random keys never give the same secret text |
| Text.Decimal | routes/settings.go:71-76 | the stored `written` field is the base-10 text of the millisecond timestamp: never empty, a '-' exactly for negatives, no leading zero, "0" for zero |
| Text.DecimalRoundTrip | routes/settings.go:73-76 | the decimal text parses back to the timestamp |
| Text.DecimalInjective | routes/settings.go:47 | distinct write times give distinct validators |
| Store.GetReply | main.go:77-85 | GET: nil exactly for an absent key, the string for a string key, WRONGTYPE otherwise |
| Store.WrittenReply | routes/settings.go:18-24 | HGET written: nil when the key or field is absent, the field when it is present, WRONGTYPE on a string key |
| Store.FieldsOf | routes/settings.go:33-38 | HMGET value written: both nil for an absent key, the two fields of a hash, WRONGTYPE on a string key |
| Store.Redis.Get | main.go:77 | the reply of GET on the current contents |
| Store.Redis.HGetWritten | routes/settings.go:18 | the reply of HGET written on the current contents |
| Store.Redis.HMGet | routes/settings.go:33 | the reply of HMGET on the current contents |
| Store.Redis.Set | routes/discord.go:102 | SET overwrites the key with the string, nothing else changes |
| Store.Redis.Del | routes/root.go:15-16 | DEL removes the key, absent or not, nothing else changes |
| Store.Redis.HSet | routes/settings.go:73-80 | HSET sets both fields at once, or fails with WRONGTYPE on a string key and changes nothing |
| Keys.SecretsKey | main.go:77 | the secrets key lies in the "secrets:" namespace and outside "settings:" |
| Keys.SettingsKey | routes/settings.go:18 | the settings key lies in the "settings:" namespace and outside "secrets:" |
| Keys.NamespacesDisjoint | routes/root.go:15-16 | no secrets key equals any settings key |
| Keys.KeysSeparateUsers | routes/settings.go:73 | with a collision-free hash, distinct users have distinct keys in both namespaces |
| AllowList.AllowListOf | main.go:103-109 | an empty ALLOWED_USERS means no list; a listed id never contains a comma |
| AllowList.ParseAllowedUsers | main.go:103-109 | the startup loop builds exactly the allow-list AllowListOf describes |
| AllowList.AllowListOfFields | main.go:106-107 | fields joined by commas allow exactly those fields |
| AllowList.AllowListOfPair | main.go:106 | "a,b" allows exactly {a, b}, untrimmed |
| Auth.RequireAuth | main.go:39-96 | empty header gives 401 "Missing authorization"; every rejection is 401, 403 or a crash; it crashes only on a malformed store |
| Auth.MalformedRejected | main.go:51-66 | undecodable base64, or a text without exactly one colon, gives 401 |
| Auth.AuthorizedIff | main.go:68-95 | success with user u iff the header decodes to "secret:u", the gate passes and the stored secret equals the presented one |
| Auth.ForbiddenIff | main.go:71-75 | 403 iff the header is a well-formed credential whose user the gate blocks (list set, path not /v1, method not DELETE, user not listed) |
| Auth.WrongSecretRejected | main.go:77-91 | a credential that passes the gate gets 401 when no secret is stored or it differs |
| Auth.StoreReadLast | main.go:40-75 | a missing header and a 403 do not depend on the store: the lookup comes last |
| Auth.DependsOnlyOnSecret | main.go:77 | the decision reads nothing but the secrets keys |
| Settings.HeadSettings | routes/settings.go:15-28 | 404 exactly without a `written` field; a crash exactly on a string key; a present `written` gives 204 with ETag = `written`; never a body |
| Settings.GetSettings | routes/settings.go:30-54 | 404 exactly without `value`; 304 iff a value is stored and If-None-Match equals `written`; a stored value and `written` with another tag give 200 with exactly the stored bytes, octet-stream, ETag = `written` |
| Settings.PutStep | routes/settings.go:56-85 | 415 before 413; both leave the store as it was; length equal to the limit is accepted; success stores body and decimal timestamp and returns it; only the user's settings key changes; the invariant is kept |
| Settings.DeleteStep | routes/settings.go:87-93 | 204; the settings key is gone; nothing else changes |
| Settings.ReadHead | routes/settings.go:15-28 | HEAD read through HGET on the live store answers as HeadSettings |
| Settings.ReadSettings | routes/settings.go:30-54 | GET read through HMGET on the live store answers as GetSettings |
| Settings.PutSettings | routes/settings.go:56-85 | the in-place PUT answers and updates the store as PutStep says |
| Settings.DeleteSettings | routes/settings.go:87-93 | the in-place DELETE answers and updates the store as DeleteStep says |
| Settings.PutThenGet | routes/settings.go:47-84 | after an accepted PUT, HEAD gives the new tag and GET gives the exact bytes, or 304 for that tag |
| Settings.StaleValidatorGetsBlob | routes/settings.go:47-53 | a tag from any other write time gets 200 with the current blob |
| Settings.NoValidatorNoNotModified | routes/settings.go:47 | on a well-formed store, a GET without If-None-Match never gets 304 |
| Settings.RejectedPutKeepsRecord | routes/settings.go:57-67 | a 415 or 413 leaves what HEAD and GET see unchanged |
| Settings.DeleteThenRead | routes/settings.go:87-93 | after DELETE, HEAD and GET give 404, and DELETE again changes nothing |
| Settings.SecretsUntouched | routes/settings.go:73-90 | PUT and DELETE never change any secrets key |
| Settings.PutIsolated | routes/settings.go:73 | with a collision-free hash, one user's PUT is invisible to HEAD and GET of every other user |
| OAuth.CallbackStep | routes/discord.go:26-110 | missing code 400; token transport error 500; token error 400; user failure 500; the store changes only by storing the hex of the random bytes under the resolved user's absent key; a returned secret is the stored one; a resolved user that the gate lets through gets exactly Provision; the invariant is kept |
| OAuth.Provision | routes/discord.go:88-109 | create-if-absent: an existing secret is returned with the store untouched; an absent key gets the hex of the random bytes, stored and returned; a failing random source gives 500 with nothing stored |
| OAuth.Callback | routes/discord.go:26-110 | the in-place callback answers and updates the store as CallbackStep says |
| OAuth.NotListedForbidden | routes/discord.go:82-86 | a resolved user outside the allow-list gets 403, store untouched, with no path or method exemption |
| OAuth.FirstLinkMintsSecret | routes/discord.go:90-109 | first link of a user: the secret is the 96-digit lowercase hex of the random bytes, stored and returned |
| OAuth.RandomFailureStoresNothing | routes/discord.go:93-99 | a failing random source gives 500, nothing stored |
| OAuth.ExistingSecretReturned | routes/discord.go:88-109 | a resolved, allowed user whose key already holds a secret gets that secret back, store unchanged |
| OAuth.RelinkReturnsSameSecret | routes/discord.go:88-109 | a later successful link of the same user returns the same secret and changes nothing |
| Account.Ping | routes/root.go:21-25 | GET /v1 answers 200 with the JSON ping body, no ETag |
| Account.EraseStep | routes/root.go:12-19 | 204; both keys of the user gone; all other keys unchanged; invariant kept |
| Account.EraseAccount | routes/root.go:12-19 | the in-place erase answers and updates the store as EraseStep says |
| Account.EraseIdempotent | routes/root.go:15-18 | erasing twice is erasing once |
| Account.EraseClearsSettings | routes/root.go:15 | after erasure HEAD and GET give 404 |
| Account.EraseLocksOut | routes/root.go:16 | after erasure, a request with the old credential that the gate lets through gets 401 |
| Account.EraseIsolated | routes/root.go:15-16 | with a collision-free hash, other users' secrets and settings are untouched |
| Server.ServeStep | main.go:150-168 | requireAuth runs first on /v1/settings and DELETE /v1, and a rejection leaves the store as it was; an accepted request reaches exactly its handler (HEAD, GET, PUT, DELETE on settings; erase on DELETE /v1), other verbs and paths are not handled; GET /v1 answers the ping; only an authenticated user's own two keys can change; the invariant is kept and nothing crashes on a well-formed store |
| Server.Handle | main.go:150-168 | the live dispatch answers and updates the store as ServeStep says |
| Server.SettingsKeepAuth | main.go:151 | no settings request changes what the authenticator decides afterwards |
| Server.ErasureIsNotGated | main.go:71 | with allow-list {"1234"}, user 5678 gets 403 on /v1/settings, with the store unchanged, but may erase the account through DELETE /v1 |
| Server.ErasedAccountLockedOut | main.go:165 | after DELETE /v1, every settings request with the erased credential gets 401, or 403 where the list blocks the user |
| Server.SyncScenario | routes/settings.go:47-84 | PUT DE AD BE EF (limit 1024) returns the timestamp T; GET with tag T gives 304; with tag "0" gives the bytes and ETag T |
| Legacy.RequestTimeSecretsKey | Handlers/Handlers.go:109 | the key built from the request-time pepper equals the callback's key when the environment is unchanged |
| Legacy.RequireAuth | Handlers/Handlers.go:71-128 | same outcomes as the current requireAuth when the environment's pepper equals the one captured at startup |
| Legacy.PepperDriftMissesSecret | Handlers/Handlers.go:64 | with a collision-free hash, a pepper that changed after startup makes RequireAuth look under a different key from the one the callback wrote |
| Legacy.V1SettingsHead | Handlers/Handlers.go:130-143 | the same answer as the current HEAD |
| Legacy.V1SettingsGet | Handlers/Handlers.go:145-169 | the same answer as the current GET |
| Legacy.V1SettingsPut | Handlers/Handlers.go:171-202 | the same answer and store change as the current PUT (415 before 413, strict >) |
| Legacy.V1SettingsDelete | Handlers/Handlers.go:204-210 | the same as the current settings DELETE; the secret stays |
| Legacy.V1OauthCallback | Handlers/Handlers.go:212-293 | the same answer and store change as the current callback |
| Legacy.V1Delete | Handlers/Handlers.go:302-309 | the same as the current account erase: both keys removed, 204 |
| Legacy.V1Get | Handlers/Handlers.go:311-315 | the same ping as the current GET /v1 |
| Original.AuthHook | src/index.ts:55-84 | runs only on the route /settings; a missing header gives 401; a text that does not split in two gives 401; it never answers 403, and crashes only on a malformed store |
| Original.HookWrongSecretRejected | src/index.ts:77-81 | on a well-formed store, a two-part credential whose secret is absent or different gives 401 |
| Original.HookBindsIff | src/index.ts:60-83 | binds user u iff the header decodes to "u:secret" and that secret is stored for u |
| Original.CredentialOrderReversed | src/index.ts:74-75 | the same text "a:b" authenticates user b in Go (secret a) and user a here (secret b) |
| Original.GetSettings | src/index.ts:86-99 | 404 with a JSON error exactly when no value is stored; a stored value gives 200 with the stored bytes and ETag = `written`; never 304 |
| Original.PutStep | src/index.ts:101-118 | wrong content type 400, then too large 400, both leaving the store unchanged; success stores body and timestamp and returns it |
| Original.PutSettings | src/index.ts:101-118 | the in-place PUT answers and updates the store as PutStep says |
| Original.DeleteSettings | src/index.ts:120-124 | 204 and the settings key removed |
| Original.PutThenGet | src/index.ts:86-118 | after an accepted PUT, GET returns exactly the bytes with the new tag |
| Original.CallbackStep | src/index.ts:137-187 | missing code 400; token not ok 400; user not ok 500; a stored non-empty secret is returned with the store untouched; the store changes only by storing a fresh hex secret; a returned secret is the stored one |
| Original.Callback | src/index.ts:137-187 | the in-place callback answers and updates the store as CallbackStep says |
| Original.CallbackVariantsAgree | src/index.ts:177-186 | on a well-formed store with no allow-list and no failed call, it stores and answers as the Go callback does (only the user-lookup 500 message differs) |

## Left out

- HTTP framework plumbing: fiber and fastify contexts, CORS, logging, and fiber's case-insensitive and trailing-slash path matching. Request paths are compared exactly.
- Fiber's own 404 for verbs on `/v1/settings` with no handler. `Server.ServeStep` returns None there, as it does for the routes it does not dispatch: `/v1/oauth/callback`, `/v1/oauth/settings`, `/` and `/metrics`.
- GETOAuthSettings / V1OauthSettings and the `/authorize` redirect: they only echo configuration strings.
- The outbound Discord requests. Their results are the `ProviderReply` inputs. An "error state" stands for both Go's `IsErrorState` (status at least 400) and fetch's `!ok` (status outside 200-299).
- SHA-1 and base64: `Config.hash` and `Config.decode` are arbitrary functions. Collision freedom is assumed only where a lemma states `Injective`.
- The random source and the clock are inputs. `written` is not claimed to increase.
- Integer widths: timestamps and body lengths are unbounded integers. Go's int64 and the JavaScript number behave the same for real timestamps and lengths. A non-numeric SIZE_LIMIT is not modelled: TypeScript would compare against NaN, and Go would parse it as 0.
- Environment loading (`globals.go`, `init`, the parsing of SIZE_LIMIT) is left out. Configuration values are inputs.
- Prometheus account gauges (a Redis SCAN with a float result) and `routes/telemetry.go`: not part of this model.
- Concurrency: requests run one after another. The check-then-set race in provisioning is not modelled, and neither is the two-call read of the TypeScript GET.
- Redis connection errors. Only the WRONGTYPE error is modelled, as `Crash`. Go's ignored error results of SET and DEL are treated as success.
- Fastify's own refusal of unknown content types and its handling of a returned reply object in DELETE /settings. The TypeScript PUT and DELETE are modelled as the handler bodies read.
- HEAD in the TypeScript service: it has no handler of its own.
- The code that fills ALLOWED_USERS in `Handlers/Handlers.go` is not part of this model. The older service's handlers take the allow-list from the configuration, parsed as in the current service.
