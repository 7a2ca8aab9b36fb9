# CG ad service: provider selection and anti-abuse core in Dafny

This project models the decision logic of the CG ad microservice. The service hands out
ads from one of three providers (Google AdSense or its development mock, an affiliate
redirect and a mini-game placeholder). It chooses the provider per request, by weight or
by round robin. It issues an HMAC-signed viewability token for each served impression and
keeps a first-wins table of recent clicks. Premium users, and users with credits, may skip
ads.

The model covers:

- the anti-abuse primitives: the viewability token codec, the click dedupe key and the
  dedupe table, and the client fingerprint;
- the provider registry and the selector, with the weighted loop and the `rrIndex`
  round-robin counter;
- the ad-request and click handlers over an abstract store;
- the environment configuration the core reads;
- the normalisation of credits-service answers;
- the bearer-header parsing and the JWT required-claims check;
- the Google Ads manager lifecycle (`enabled`, `initialized`), the mock manager's scenarios
  and the three provider variants.

Outside inputs are parameters:

- the clock (`Date.now()`), the random draws (`Math.random()`) and the UUIDs are values
  passed in, grouped in `AdTypes.Draws` for the providers;
- HMAC-SHA-256 and SHA-256 are function-valued parameters that return a 32-byte digest,
  and the hex rendering of that digest is modelled exactly;
- `jsonwebtoken.verify` is a function-valued parameter;
- what the credits service answered (thrown, or `ok` plus the parsed body) is a value;
- the SQLite tables are an `AdStore` object holding an impression map and a click
  sequence. A write to it fails when the database is unavailable or the primary key is
  already taken.

Modules follow the source files:

| module | source file |
|---|---|
| `Abuse` | `src/lib/abuse.ts` |
| `Registry` | `src/providers/registry.ts` |
| `RequestAd`, `TrackClick` | the two handlers |
| `AdsConfig` | `src/config/ads.ts` |
| `CreditsClient` | `src/lib/credits-client.ts` |
| `Jwt` | `src/lib/jwt.ts` |
| `GoogleAds` | `src/lib/google-ads.ts` |
| `MockGoogleAds` | `src/lib/mock-google-ads.ts` |
| `Providers` | `src/providers/vendors/*.ts` and the provider contract of `src/providers/types.ts` |
| `AdStore` | the two writers of `src/lib/database.ts` and the impression query of `src/handlers/track-click.ts` |

These modules hold the JavaScript string and number semantics the core relies on:

| module | semantics |
|---|---|
| `JsText` | `trim`, `split`, `join` |
| `JsNumber` | `toString` of a non-negative integer, `Number()` and `parseInt` on decimal text |
| `Encoding` | hex digests, UTF-8 and `encodeURIComponent` |

`AdTypes` holds the shared records; `Wrappers` holds `Option` and `Result`.

Three behaviours of the code are worth knowing, and the model keeps them:

- Validating a viewability token looks only at the first three `|`-separated fields. A
  token with more than three fields is judged on its first three, and is not rejected
  for its field count. See `Abuse.TrailingFieldsIgnored`.
- `handleAdClick` does not check the viewability token or the dedupe table. It also does
  not call the provider's `onClick`. The model has no such calls either.
- `recordImpression` does not write the `provider` column. A stored impression row
  therefore carries the column default `google`, whichever provider served it. See
  `AdStore.PersistedImpression`.

## Model

| member | source | states |
|---|---|---|
| Abuse.Sign | src/lib/abuse.ts:15 | the MAC field is the 64-character hex rendering of the HMAC and never holds the `\|` separator |
| Abuse.IssueViewabilityToken | src/lib/abuse.ts:11-17 | the token is `impressionId\|decimal(ts)\|hmac(impressionId\|decimal(ts))`; for an id without `\|` it splits back into exactly those three fields; its length is fixed by the id and the timestamp |
| Abuse.ValidateViewabilityToken | src/lib/abuse.ts:19-30 | rejects when the third field is not the HMAC recomputed over the first two; with a matching MAC, rejects a non-numeric timestamp and otherwise accepts iff `now - Number(ts) >= minDisplayMs` (a NaN minimum accepts nothing); never fails |
| Abuse.ValidateIssued | src/lib/abuse.ts:11-26 | round trip: a token issued at `t` for an id without `\|` validates at `now` iff the minimum is a number and `now - t >= minDisplayMs` |
| Abuse.TamperedMacRejected | src/lib/abuse.ts:21-24 | any token whose MAC field differs from the recomputed MAC is rejected at every clock reading |
| Abuse.TrailingFieldsIgnored | src/lib/abuse.ts:21 | appending `\|extra` to an issued token does not change the verdict: only three fields are read |
| Abuse.DedupeClickKey | src/lib/abuse.ts:32-34 | the key splits into impression id, user id and session id, with `""` for a missing or empty part |
| Abuse.DedupeKeyInjective | src/lib/abuse.ts:32-34 | two clicks get the same key only if impression, user and session agree (parts without `\|`) |
| Abuse.FingerprintBase | src/lib/abuse.ts:7 | for parts without `\|`, the hashed text splits back into `ip`, `ua` and `sessionId`, with `""` for a missing part |
| Abuse.MakeFingerprint | src/lib/abuse.ts:6-9 | the fingerprint is 64 lowercase hex characters, and it is the hex rendering of exactly one digest: the SHA-256 of `ip\|ua\|sessionId` |
| Abuse.FingerprintsCollideOnlyByDigest | src/lib/abuse.ts:6-9 | for `\|`-free parts, two equal fingerprints come from equal SHA-256 digests, and the hashed texts are equal iff ip, user agent and session all agree |
| Abuse.AfterClick | src/lib/abuse.ts:38-40 | the table gains the key only on a non-duplicate, which records `now`; no other key changes; a duplicate leaves the table as it was |
| Abuse.DedupeStore.constructor | src/lib/abuse.ts:4 | the process starts with an empty dedupe table |
| Abuse.DedupeStore.IsDuplicateClick | src/lib/abuse.ts:36-42 | the verdict is `now - last < window` with an absent key as last-seen 0, and the table becomes `AfterClick` of the old one |
| Abuse.BurstStaysDuplicate | src/lib/abuse.ts:36-42 | first wins: every click within the window after a recorded click is a duplicate and the recorded time never moves |
| Abuse.FirstSecondAfterWindow | src/lib/abuse.ts:36-42 | a first click, a click inside the window and a click after it get the verdicts not-duplicate, duplicate, not-duplicate |
| JsNumber.Decimal | src/lib/abuse.ts:13 | `toString` of a timestamp is a non-empty digit string with no leading zero |
| JsNumber.DecimalValue | src/lib/abuse.ts:13 | the digits of `toString(n)` denote `n` |
| JsNumber.DecimalInjective | src/lib/abuse.ts:13 | different timestamps have different decimal renderings |
| JsNumber.ParseNumber | src/lib/abuse.ts:25 | `Number()` of empty or all-blank text is 0 |
| JsNumber.NumberOfDecimal | src/lib/abuse.ts:13-25 | `Number(toString(n)) == n`: the timestamp survives the trip through the token |
| JsNumber.ParseInt | src/config/ads.ts:62 | `parseInt(s, 10)` is a number iff, after leading whitespace and an optional sign, a digit follows |
| JsNumber.ParseIntOfDecimal | src/config/ads.ts:62-64 | `parseInt(toString(n), 10) == n` |
| JsText.TrimStart | src/config/ads.ts:44 | the result is a suffix of the text, does not start with whitespace, and only whitespace was dropped |
| JsText.TrimEnd | src/config/ads.ts:44 | the result is a prefix of the text, does not end with whitespace, and only whitespace was dropped |
| JsText.Trim | src/config/ads.ts:44 | the result is the slice of the text that starts where `trimStart` stops, with only whitespace before it and only whitespace after it; it neither starts nor ends with whitespace |
| JsText.TrimPadded | src/config/ads.ts:44 | whitespace before and after a text that neither starts nor ends with whitespace is exactly what trimming removes |
| JsText.TrimmedIsFixpoint | src/config/ads.ts:44 | a text that neither starts nor ends with whitespace is its own trim |
| JsText.TrimNoWhitespace | src/config/ads.ts:44 | text without whitespace is its own trim |
| JsText.TrimIdempotent | src/config/ads.ts:44 | trimming twice is trimming once |
| JsText.Split | src/lib/abuse.ts:21 | `split` yields at least one part, no part holds the separator, and joining the parts with it restores the text |
| JsText.SplitJoin | src/lib/abuse.ts:16-21 | splitting a join of separator-free parts returns the parts |
| JsText.SplitThree | src/lib/abuse.ts:16-21 | `a\|b\|c` with separator-free parts splits into `[a, b, c]` |
| Encoding.Hex | src/lib/abuse.ts:8 | `digest('hex')` has two lowercase hex characters per byte |
| Encoding.HexDigitValue | src/lib/abuse.ts:8 | a lowercase hex character's value is below 16 and renders back to that character |
| Encoding.UnhexHex | src/lib/abuse.ts:8 | decoding the hex rendering gives the bytes back |
| Encoding.HexInjective | src/lib/abuse.ts:8 | different byte strings have different hex renderings |
| Encoding.Utf8 | src/providers/vendors/affiliate.ts:12 | a code point encodes to 1 to 4 bytes, and to one byte iff it is ASCII |
| Encoding.PercentEncode | src/providers/vendors/affiliate.ts:12 | `%XX` escaping triples the length and yields only URI-safe characters |
| Encoding.EncodeUriComponent | src/providers/vendors/affiliate.ts:12 | the output is URI-safe, and text of unreserved characters is unchanged |
| Encoding.EncodedHasNoDelimiters | src/providers/vendors/affiliate.ts:12 | an encoded value never contains `&`, `=`, `?` or `#` |
| AdsConfig.EnvOr | src/config/ads.ts:40 | `process.env.X \|\| fallback` gives the fallback exactly for an unset or empty variable |
| AdsConfig.CleanList | src/config/ads.ts:44 | trimming and dropping empties gives non-empty entries that neither start nor end with whitespace, no more than there were pieces |
| AdsConfig.CleanIsTrimmed | src/config/ads.ts:44 | a clean entry is its own trim |
| AdsConfig.CleanListSingle | src/config/ads.ts:44 | one piece cleans to its trim, or to nothing when the trim is empty |
| AdsConfig.CleanListCons | src/config/ads.ts:44 | cleaning handles the first piece, then the rest |
| AdsConfig.CleanListAppend | src/config/ads.ts:44 | cleaning works piece by piece and keeps the order: the cleaned concatenation is the concatenation of the cleaned parts |
| AdsConfig.CleanListOfClean | src/config/ads.ts:44 | a list of clean entries is left unchanged |
| AdsConfig.CleanListPadded | src/config/ads.ts:44 | clean entries with whitespace before and after each clean back to the entries, in order |
| AdsConfig.ParseList | src/config/ads.ts:44 | every parsed entry is clean and comma-free |
| AdsConfig.ParseListOfPieces | src/config/ads.ts:44 | for comma-free pieces, parsing their comma join is cleaning those pieces in order |
| AdsConfig.ParseListPadded | src/config/ads.ts:44 | a comma join of clean comma-free entries, each padded with whitespace, parses back to the entries in order |
| AdsConfig.PaddedProvidersExample | src/config/ads.ts:44 | `" google , affiliate "` parses to `["google", "affiliate"]` |
| AdsConfig.ParseListOfJoin | src/config/ads.ts:44 | round trip: a list of clean comma-free names joined with commas parses back to itself |
| AdsConfig.DefaultProviders | src/config/ads.ts:44 | the default `PROVIDER_LIST` parses to `["google"]` |
| AdsConfig.WeightEntry | src/config/ads.ts:50-51 | an entry `k:v` is kept iff it has two `:`-parts, both non-empty, and `Number(v)` is not NaN; it maps `k` to `Number(v)` |
| AdsConfig.FoldWeightsKeys | src/config/ads.ts:49-53 | a provider has a weight iff some kept entry names it |
| AdsConfig.FoldWeightsLastWins | src/config/ads.ts:49-52 | for a repeated key, the last kept entry's weight wins |
| AdsConfig.FoldWeightsUntouched | src/config/ads.ts:49-52 | entries that do not name a key leave its weight (or its absence) alone |
| AdsConfig.CreditsOnClickFlag | src/config/ads.ts:56 | credits on click is on exactly for the string `"true"` |
| AdsConfig.DefaultWindowParses | src/config/ads.ts:62-64 | the default `"5000"` parses to 5000 |
| AdsConfig.DefaultEmptyList | src/config/ads.ts:61 | an unset or empty list variable parses to no entries |
| AdsConfig.GoogleAdsConfigOfEnv | src/config/ads.ts:67-78 | enabled exactly for `GOOGLE_ADS_ENABLED=true`; each AdSense and AdMob id is its variable's value, or `""` when unset |
| AdsConfig.AffiliateConfigOfEnv | src/config/ads.ts:80-83 | the API key and base URL are their variables' values, or `""` when unset |
| AdsConfig.DefaultAdConfig | src/config/ads.ts:38-64 | with no variable set: providers `["google"]`, no weights, no flags, mock off with scenario `success`, credits on click off, both windows 5000 |
| Jwt.VerifyToken | src/lib/jwt.ts:14-35 | the payload is returned iff the library accepts the token and `sub`, `iss`, `iat` and `exp` are all truthy; otherwise null |
| Jwt.ExtractToken | src/lib/jwt.ts:40-51 | no token for a missing or empty header; otherwise a token iff the header splits on `" "` into exactly two parts, the first `Bearer`, and the token is the second; an accepted header is `"Bearer " + token` |
| Jwt.ExtractTokenOfBearer | src/lib/jwt.ts:45-50 | round trip: `extractToken("Bearer " + t) == t` for every `t` without a space |
| CreditsClient.RewardRequest | src/lib/credits-client.ts:69 | the reward reason defaults to `ad_click_reward`; the request carries the amount and `Bearer <jwt>` |
| CreditsClient.DeductRequest | src/lib/credits-client.ts:109 | the deduct reason defaults to `skip_ad`; the request carries the amount and `Bearer <jwt>` |
| CreditsClient.GetCreditsStatus | src/lib/credits-client.ts:28-56 | a status exists iff the service answered OK with a readable body; `isPremium` defaults to false and `creditBalance` to 0; an explicit `canSkipAds` wins, otherwise it is `isPremium \|\| creditBalance > 0` |
| CreditsClient.StatusFailsOpen | src/lib/credits-client.ts:38-55 | a thrown call, a non-OK answer or an unreadable body yields null |
| CreditsClient.RewardCredits | src/lib/credits-client.ts:61-96 | success iff answered OK with a readable body, then `amountRewarded` falls back to the requested amount; a non-OK answer carries the body's error or `Failed to reward credits`; every failure has an error |
| CreditsClient.DeductCredits | src/lib/credits-client.ts:101-138 | as for rewards, with `Failed to deduct credits`, and a non-OK answer passes on `currentBalance` and `required` |
| GoogleAds.GoogleAdsManager.constructor | src/lib/google-ads.ts:9-15 | a new manager takes `enabled` from the configuration and is not initialized |
| GoogleAds.GoogleAdsManager.Initialize | src/lib/google-ads.ts:20-41 | an enabled manager becomes initialized; a disabled one is left unchanged |
| GoogleAds.GoogleAdsManager.GetAdSenseConfig | src/lib/google-ads.ts:47-61 | null iff disabled or the client id is empty; the script URL embeds the client id |
| GoogleAds.GoogleAdsManager.GetAdMobConfig | src/lib/google-ads.ts:66-78 | null iff disabled or the app id is empty; otherwise the configured app and banner unit |
| GoogleAds.GoogleAdsManager.RequestAd | src/lib/google-ads.ts:85-133 | `Google Ads is disabled`, then `Google Ads not initialized`, then `AdSense not configured`, in that order; success iff none applies, with id = slot id, type = request format, the slot sized by the request or 728x90, and impression id `imp_<now>_<rand>` |
| GoogleAds.HealthAfterInitialize | src/lib/google-ads.ts:13-166 | a fresh manager is healthy iff it is disabled; after `initialize` every manager is healthy |
| GoogleAds.InitializedManagerServes | src/lib/google-ads.ts:13-124 | a freshly built, enabled manager with an AdSense client id serves its slot once initialized |
| MockGoogleAds.PickIndex | src/lib/mock-google-ads.ts:85 | `Math.floor(u * n)` for `0 <= u < 1` is a valid index |
| MockGoogleAds.PickIndexReaches | src/lib/mock-google-ads.ts:85 | every index is picked by some draw |
| MockGoogleAds.MockGoogleAdsManager.RequestAd | src/lib/mock-google-ads.ts:59-120 | `empty` gives success with no ad; `error` gives failure `Mock error: Failed to fetch ad`; `success` and every other scenario give an ad with id `mock_ad_<now>`, type = request format, a click URL among the three inventory URLs and an impression id starting `mock_imp_` |
| MockGoogleAds.SuccessResponse | src/lib/mock-google-ads.ts:83-100 | the success builder always yields an ad whose click URL is an inventory URL, with a `mock_imp_` impression id |
| MockGoogleAds.EveryMockAdServable | src/lib/mock-google-ads.ts:18-100 | each of the three inventory ads is served for some draw |
| Providers.GoogleAdRequest | src/providers/vendors/google.ts:10-12 | the google provider always asks for a banner with no size, passing page, session and device type |
| Providers.FromManagerResponse | src/providers/vendors/google.ts:13-14 | an unsuccessful response or one without an ad fails with `No ad`; otherwise it is the manager's ad with provider `google` |
| Providers.GoogleRequestAd | src/providers/vendors/google.ts:9-15 | with mock mode on, succeeds iff the scenario is neither `empty` nor `error`; with it off, succeeds iff the real manager is enabled, initialized and configured, and then serves its slot; a served ad is a `google` banner |
| Providers.AffiliateQueryFields | src/providers/vendors/affiliate.ts:12 | whatever the key, session and ad id, the click URL's query splits on `&` into exactly `affid=`, `sid=` and `pid=`, each splitting on `=` into its name and the encoded value |
| Providers.AffiliateAd | src/providers/vendors/affiliate.ts:8-21 | a `redirect` ad `Affiliate Offer` with provider `affiliate`; id and impression id are the two separate UUIDs, and the click URL is built from the base URL (or the placeholder), the key, the session and the ad id |
| Providers.MinigameAd | src/providers/vendors/minigame.ts:8-18 | an `html` ad with provider `minigame`, the two separate UUIDs and no click URL |
| Providers.RequestAd | src/providers/types.ts:42-48 | every provider marks its ad with its own name; affiliate and minigame never fail; google is the google vendor |
| Providers.OnClick | src/providers/vendors/google.ts:17-19 | every provider acknowledges every click with success |
| Registry.GetProviderByName | src/providers/registry.ts:7-15 | a provider exactly for the three registered names, registered under its own name |
| Registry.LookupOfName | src/providers/registry.ts:7-15 | looking up a provider's name finds that provider |
| Registry.Resolve | src/providers/registry.ts:31-39 | a registered name resolves to its provider, any other to google |
| Registry.ActiveProviders | src/providers/registry.ts:20 | the configured list, or `["google"]` when it is empty |
| Registry.FirstCovering | src/providers/registry.ts:25-34 | the first index in list order whose cumulative weight reaches `r`, or none when none does |
| Registry.WeightedWalk | src/providers/registry.ts:25-34 | the loop returns the provider at the first covering index, or google on fall-through |
| Registry.ChosenSlice | src/providers/registry.ts:25-32 | with non-negative weights, index `j` is picked iff `r` lies in its slice of the cumulative weights |
| Registry.ZeroWeightNeverChosen | src/providers/registry.ts:29-31 | a weight-0 provider that is not first is never picked |
| Registry.ZeroDrawPicksFirst | src/providers/registry.ts:26-32 | the draw 0 picks the first provider |
| Registry.FallThroughIffAboveTotal | src/providers/registry.ts:28-34 | with non-negative weights, the loop falls through iff the draw exceeds the total |
| Registry.ScaledDrawCovered | src/providers/registry.ts:25-34 | `r = Math.random() * total` never falls through when weights are non-negative |
| Registry.RoundRobinName | src/providers/registry.ts:37 | `providers[rrIndex % len]`, or `google` for an empty name |
| Registry.RoundRobinPeriodic | src/providers/registry.ts:37-38 | round robin repeats with period equal to the list length |
| Registry.RoundRobinReaches | src/providers/registry.ts:37-38 | from any counter value, every provider's turn comes within one full cycle |
| Registry.Selector.constructor | src/providers/registry.ts:17 | the round-robin counter starts at 0 over the configured providers and weights |
| Registry.Selector.SelectProvider | src/providers/registry.ts:19-40 | when every active provider is weighted: the weighted choice for `u * total`, with `rrIndex` unchanged; otherwise: the round-robin choice, with `rrIndex` advanced by exactly one |
| AdStore.NullIfEmpty | src/lib/database.ts:234 | an empty or missing user id is stored as NULL, any other is kept |
| AdStore.PersistedImpression | src/lib/database.ts:225-244 | the stored row is the record with provider `google` (the unwritten column's default) and an empty user id as NULL |
| AdStore.PersistedClick | src/lib/database.ts:249-265 | the stored click row is the record with an empty user id as NULL |
| AdStore.AdStore.RecordImpression | src/lib/database.ts:225-244 | inserts iff the store is up and the id is new; nothing else changes; every click keeps a stored impression |
| AdStore.AdStore.GetImpression | src/handlers/track-click.ts:17-21 | fails iff the store is down; otherwise finds the row iff the id is stored |
| AdStore.AdStore.RecordClick | src/lib/database.ts:249-265 | appends iff the store is up and the click id is new; impressions are untouched |
| RequestAd.CreditsGate | src/handlers/request-ad.ts:23-36 | skips the ad iff a JWT and a user id are both present and the service reports `canSkipAds`; the reason is `premium_user` for premium users and `has_credits` otherwise |
| RequestAd.ImpressionFor | src/handlers/request-ad.ts:55-65 | the impression row has id = impression id, ad unit = ad id, the ad's provider, device type defaulting to desktop and user agent `""` |
| RequestAd.HandleAdRequest | src/handlers/request-ad.ts:14-79 | a skipped ad returns success with the skip reason and touches neither selector nor store; otherwise the selector advances as `selectProvider` does; a provider failure gives `Internal server error` with no write; a served ad is enriched, returned with success, and written to the store when the write succeeds (a failed write is ignored) |
| RequestAd.GateNeedsJwtAndUser | src/handlers/request-ad.ts:23 | without both a JWT and a user id the credits gate never skips |
| RequestAd.FailedStatusServesAd | src/handlers/request-ad.ts:24-45 | a failed status call falls through to serving an ad |
| RequestAd.ServedAdNamesSelectedProvider | src/handlers/request-ad.ts:45-52 | a served ad's provider is the selected provider's name, and every field but the token is the provider's own |
| RequestAd.ServedTokenValidates | src/handlers/request-ad.ts:51-52 | the served token is issued for the ad's impression id and validates iff the minimum display time has elapsed |
| TrackClick.ClickFor | src/handlers/track-click.ts:33-41 | the click row takes ad unit and session from the stored impression, the caller's impression id, click URL and user id, and revenue 0 |
| TrackClick.HandleAdClick | src/handlers/track-click.ts:8-53 | store down: `Internal server error`; unknown impression: `Impression not found`; otherwise exactly one click row is appended and the result is success, unless the write fails (`Internal server error`); no write on any failure; every click keeps a stored impression |

## Left out

- `Number()` accepts exponent notation, hexadecimal (`0x`), binary (`0b`) and octal (`0o`) literals and `Infinity`. The model treats them as NaN. So a weight such as `1e2` is dropped here but kept by the service.
- `toString` of timestamps at or above 10^21 (exponent notation) and integer precision loss above 2^53 are not modelled. Timestamps, counters and weights are unbounded integers and exact reals.
- A registry or weight lookup of a name like `constructor` also sees `Object.prototype` properties. The model's maps hold only what the configuration put there.
- `rrIndex` loses precision beyond 2^53 increments. The model's counter is an unbounded natural.
- Strings are sequences of code points, not UTF-16 code units. Lone surrogates, which make `encodeURIComponent` throw, cannot occur.
- `creditRatio`, `creditConversionParam`, `clickRateLimit` and the other `AD_CONFIG` fields are not read by the core. `parseFloat` is not modelled.
- `LoadAdConfig`, `LoadGoogleAdsConfig` and `LoadAffiliateConfig` carry no contract of their own. The fields of `LoadGoogleAdsConfig` and `LoadAffiliateConfig` are stated by `GoogleAdsConfigOfEnv` and `AffiliateConfigOfEnv`. For `LoadAdConfig`, the lemmas above state the defaults (`DefaultAdConfig`), the credits flag (`CreditsOnClickFlag`) and the list and weight parsing it applies.
- The HTML templates are opaque. A creative records only what its template is filled with (`AdTypes.Creative`).
- The route calls `handleAdRequest` without a JWT (src/routes/ads.ts). So over HTTP the credits gate is never consulted. The model keeps the JWT a parameter, as the handler has it.
- The mock manager reads `Date.now()` twice, once for the impression id and once for the ad id. The model uses one reading. The 100 ms simulated delay is time only.
- The mock `getAdSenseConfig` and `checkHealth` return constants. They are the constant `MockGoogleAds.MockAdSenseConfig`; the health answer is always true and has no member.
- `Math.random().toString(36).substr(2, 9)` impression suffixes are an opaque string parameter.
- A JSON body that is `null` rather than an object makes `getCreditsStatus` throw while reading fields (it then returns null), and the reward and deduct calls report a `TypeError`. The model's bodies are always objects.
- The optional provider hooks `onReward` and `fetchRevenue` are implemented by no provider. They are not modelled.
- Logging, metrics, the HTTP wiring, the SQLite schema and migrations, the revenue sync job and the front end are not part of this model.
- `RequestAd.HandleAdRequest`, `TrackClick.HandleAdClick` and the store methods: SQLite constraint failures other than a duplicate primary key cannot arise from these rows, because foreign keys are not enforced. Only "database down" and duplicate keys are modelled as write failures.
