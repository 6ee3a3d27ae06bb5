# Joystick PHP client: request shaping and response normalising, in Dafny

This project models the core of the Joystick PHP client (getjoystick/joystick-php):

- `ClientConfig` and its validating fluent setters.
- How `CacheKeyBuilder::build` derives a cache key from the config.
- The request envelope and status classification shared by every API call (`AbstractApi`).
- The multiple-content fetch `MultipleContent::getContents`: validation, option resolution, cache short-circuit, request, per-content error detection, response shaping, cache write-back.
- The publish path `SingleContent::publishContentUpdate`.
- The aggregate error message of `Exceptions\Api\MultipleContentApi::create`.

Layout, one module per file:

- `results.dfy` (`Results`): `Option`, `Outcome` (a return value or a thrown exception) and one `Error` constructor per exception class.
- `php.dfy` (`Php`): PHP values, truthiness (`empty("0")` holds), string-keyed arrays with in-place assignment, decimal integers, and `Runtime`. `Runtime` holds the foreign primitives json_encode, json_decode and sha256 as opaque function values.
- `sorting.dfy` (`Sorting`): `sort`/`ksort` as an insertion sort by a string key, and the proof that the result depends only on the elements, not on their order.
- `config.dfy` (`Config`): the `ClientConfig` class, the cache store class and the semantic-version check.
- `cachekeys.dfy` (`CacheKeys`): `CacheKeyBuilder::build`.
- `abstractapi.dfy` (`AbstractApi`): `makeJoystickRequest` and `mapHttpResponseToException`.
- `formatter.dfy` (`ContentErrors`): `MultipleContentApi::create`.
- `multiplecontent.dfy` (`MultipleContent`): `getContents` and its helpers.
- `singlecontent.dfy` (`SingleContent`): `publishContentUpdate` and its validation.

The HTTP exchange is not performed. The reply the server would give (status and body) is an input, and the request that would be sent is an output. Each state-changing operation has a method on a class and a specification function:

- The `ClientConfig` setters are methods on the class; `Snapshot()` is the value of its fields.
- `getContents` is a method that reads and writes the cache object. Its postcondition ties it to `GetContentsSpec`, and the lemmas about the behaviour are stated on that function.

PHP's `assert()` is modelled as enabled. A failed assertion is the `AssertionFailure` outcome.

## Model

| member | source | states |
|---|---|---|
| Config.ClientConfig.Create | src/ClientConfig.php:74-83 | A fresh config has no API key, user id, params or version, has `serialized` off and a TTL of 300, and holds a new empty cache. |
| Config.ClientConfig.SetApiKey | src/ClientConfig.php:103-112 | A key PHP calls empty (`""` or `"0"`) throws InvalidArgumentException with the source's message and leaves the config unchanged. Any other key is stored; nothing else changes and the same object is returned. |
| Config.ClientConfig.SetUserId | src/ClientConfig.php:126-130 | Stores the user id; every other field is unchanged and the same object is returned. |
| Config.ClientConfig.SetParams | src/ClientConfig.php:144-148 | Replaces the params array; every other field is unchanged. |
| Config.ClientConfig.SetParamValue | src/ClientConfig.php:155-162 | Starting from an empty array when params is unset or empty: the key maps to the new value, every other key keeps its value, and the key order is kept with a new key last. Keys stay distinct. |
| Config.ClientConfig.SetSemVer | src/ClientConfig.php:177-186 | A string that is not `major.minor.patch` throws and changes nothing. A valid one is stored. |
| Config.ClientConfig.SetCacheExpirationSeconds | src/ClientConfig.php:202-209 | A negative TTL throws and changes nothing. Any other value is stored. |
| Config.ClientConfig.SetSerialized | src/ClientConfig.php:296-300 | Stores the flag; every other field is unchanged. |
| Config.ClientConfig.SetCache | src/ClientConfig.php:278-282 | Replaces the cache object; the settings are unchanged. |
| Config.Cache.Get | src/Apis/MultipleContent.php:52 | The stored value for the key, or null when there is none. |
| Config.Cache.Set | src/Apis/MultipleContent.php:91 | The key now holds the value and the TTL it was stored with; no other key changes. |
| Php.PutLookup | src/ClientConfig.php:160 | `$a[$k] = $v`: afterwards `$k` maps to `$v` and every other key's lookup is unchanged. |
| Php.PutNames | src/ClientConfig.php:160 | An existing key keeps its position; a new key goes last; no other key moves. |
| Php.PutKeepsKeysDistinct | src/ClientConfig.php:160 | Assigning one key never duplicates a key. |
| Config.SemVerAcceptsRendered | src/ClientConfig.php:180-181 | Every `major.minor.patch` of three naturals in decimal passes the version check. |
| Config.SemVerIsRendered | src/ClientConfig.php:180-181 | Every string that passes is the decimal rendering of its three numbers. No leading zeros, no extra parts and no other characters get through. |
| Config.SemVerPatternAcceptsTrailingNewline | src/ClientConfig.php:180-181 | The pattern as PCRE applies it accepts `"1.2.3\n"`, which is not a valid version. |
| Sorting.SortBy | src/CacheKeyBuilder.php:26 | `ksort`/`sort`: the result is a permutation of the input, ordered byte-wise by key (see Left out). |
| Sorting.SortByCanonical | src/Apis/MultipleContent.php:103-104 | Two arrangements of the same elements with distinct keys sort to the same sequence. |
| CacheKeys.ParamsSegment | src/CacheKeyBuilder.php:25-27 | Unset params give null. Set params give an array with the same entries, sorted by key. |
| CacheKeys.SegmentsIdentifyInputs | src/CacheKeyBuilder.php:28-33 | Two configs and segment lists give the same hash input if and only if all of these match: API key, version, user id, the params up to order, and the extra segments. |
| CacheKeys.ParamsOrderIrrelevant | src/CacheKeyBuilder.php:25-27 | Params that differ only in insertion order give the same key. |
| CacheKeys.SegmentsEncodable | src/CacheKeyBuilder.php:28-35 | The segment list is JSON-encodable exactly when the params values and the extra segments are. |
| CacheKeys.BuildFailsOnlyOnUnencodable | src/CacheKeyBuilder.php:35-39 | The non-empty assertion fails exactly when something cannot be encoded. Otherwise the key is `sha256(json_encode(segments))`. |
| CacheKeys.UnconfiguredSegments | src/CacheKeyBuilder.php:28-33 | A fresh config with no extra segments hashes `[null, null, null, null]`. |
| AbstractApi.MapHttpResponseToException | src/Apis/AbstractApi.php:83-95 | 400–499 gives BadRequest, 500 and above gives ServerError, and anything below 400 gives UnknownError. All three carry the status message. |
| AbstractApi.StatusMessageRoundTrip | src/Apis/AbstractApi.php:87 | Both the status code and the whole body can be read back out of the message. |
| AbstractApi.PrepareRequest | src/Apis/AbstractApi.php:46-61 | A request is built exactly when the API key is present and the body is encodable; each failure is an assertion with the source's message. The request carries the method, URI, body, JSON content type and `x-api-key` header, and the encoded payload. |
| AbstractApi.ReadReply | src/Apis/AbstractApi.php:65-75 | Only status 200 is decoded. Any other status throws the mapped exception; a 200 with undecodable JSON throws `Api\Exception`; otherwise the result is the decoded value. |
| AbstractApi.MakeJoystickRequest | src/Apis/AbstractApi.php:44-76 | A request is sent exactly when both assertions pass, and it is the prepared request. When an assertion fails, nothing is sent and that assertion's error is thrown. A sent request gives the result of reading the reply, so a value is returned only after a 200. |
| ContentErrors.Create | src/Exceptions/Api/MultipleContentApi.php:13-21 | The loop builds the header followed by one bullet line per error; no errors gives exactly the header. |
| ContentErrors.ErrorAt | src/Exceptions/Api/MultipleContentApi.php:16-18 | Each error text appears in the message right after its own `"\n-  "`, at its own offset. |
| ContentErrors.OffsetsIncrease | src/Exceptions/Api/MultipleContentApi.php:16-18 | Each error's line ends before the next error's line begins, so the lines keep input order. |
| ContentErrors.MessageLength | src/Exceptions/Api/MultipleContentApi.php:15-20 | The message is exactly the header plus one bullet and one text per error. |
| MultipleContent.ValidateSignature | src/Apis/MultipleContent.php:144-158 | The call passes exactly when the ids are a non-empty list of non-empty strings and each option is unset or boolean. Otherwise one lazy exception carries the failing property paths, filtered from the chain order `contentIds`, `refresh`, `serialized`, `fullResponse`. |
| MultipleContent.ViolationsInChainOrder | src/Apis/MultipleContent.php:146-157 | Building the four chains one after another collects exactly the failing paths, in chain order. |
| MultipleContent.ViolationsExact | src/Apis/MultipleContent.php:146-158 | A path is named in the exception exactly when it is one of the four chains and that chain fails. |
| MultipleContent.ResolvedOptions | src/Apis/MultipleContent.php:116-124 | After validation, `serialized` is a boolean. It is on exactly when the call turned it on, or left it unset while the config has it on. `refresh` and `fullResponse` are on only when the call turned them on. |
| MultipleContent.IdOrderIrrelevant | src/Apis/MultipleContent.php:101-110 | Permuting the content ids does not change the cache key. |
| MultipleContent.CacheKeyBuilds | src/Apis/MultipleContent.php:101-110 | After validation the key can be built exactly when the params can be encoded. |
| MultipleContent.BodyEncodable | src/Apis/MultipleContent.php:68-74 | The request body is encodable exactly when the params are. |
| MultipleContent.RequestShape | src/Apis/MultipleContent.php:58-74 | The query is `c` (the ids in the order asked, not sorted), `dynamic=true`, and `responseType=serialized` only when serialized is on. The body has keys `u`, `p`, and `v` exactly when a valid version is set. `u` is the user id or `""`, `p` is the params or an empty object, and `v` is the version. |
| MultipleContent.StringsInExact | src/Apis/MultipleContent.php:164-172 | Every string entry of the reply is collected, only string entries are, and the list is empty exactly when there is none. |
| MultipleContent.ValidateGetContentsResponse | src/Apis/MultipleContent.php:164-176 | The loop passes when the reply has no string entry. Otherwise it throws MultipleContentApi whose message lists them all. |
| MultipleContent.MapEntries | src/Apis/MultipleContent.php:130-135 | Each entry becomes its `data` field under the same key, with the keys in the same order. |
| MultipleContent.MapGetContentsResponse | src/Apis/MultipleContent.php:130-135 | The same for a keyed or a list reply: keys and positions are preserved and each value becomes its `data`. |
| MultipleContent.MultipleContent.GetContents | src/Apis/MultipleContent.php:44-94 | Its result, the request it sends and its cache write are exactly those of `GetContentsSpec` on the config and cache as they were; the cache changes only by that write. |
| MultipleContent.MultipleContent.FetchAndStore | src/Apis/MultipleContent.php:58-93 | After a cache miss: the result, the request sent and the cache write are exactly those of `FetchFromApi`; the cache changes only by that write. |
| MultipleContent.ValidationComesFirst | src/Apis/MultipleContent.php:46 | An invalid call throws the validation exception with nothing sent and nothing cached. |
| MultipleContent.CacheHitShortCircuits | src/Apis/MultipleContent.php:51-56 | Without refresh, a truthy cached array is returned unchanged, with no request and no cache write. |
| MultipleContent.MissGoesToServer | src/Apis/MultipleContent.php:51-80 | With refresh on, or a falsy cached value: a POST to the combine endpoint is sent exactly when the API key is set and the params are encodable. It carries the built query and body. |
| MultipleContent.PartialFailureSurfaces | src/Apis/MultipleContent.php:76-84 | A reply with string entries throws MultipleContentApi listing them all; nothing is returned or cached. |
| MultipleContent.SuccessIsWrittenBack | src/Apis/MultipleContent.php:86-93 | A good reply is reduced to its `data` fields unless fullResponse is on. It is returned and cached under the key with the config's TTL, even when refresh was on. |
| MultipleContent.FetchWritesOnlySuccess | src/Apis/MultipleContent.php:76-93 | The server path writes to the cache only after a 200 answer. It writes what it returns, under the key, with the config's TTL. |
| MultipleContent.OnlySuccessIsCached | src/Apis/MultipleContent.php:86-93 | The cache is written only after a sent request answered 200, and with the returned value and the config's TTL. |
| SingleContent.FieldOr | src/Apis/SingleContent.php:46 | `$params[$k] ?? $default`: the stored value when the key is set and not null, the default otherwise. |
| SingleContent.ValidatePublishContentUpdateParams | src/Apis/SingleContent.php:61-81 | Passes exactly when every publish condition holds. A missing or null `description`, then `content`, fails first, alone. Next, any failing field check throws one lazy exception naming exactly the failing fields among content id, description and dynamicContentMap. Only when those all pass is encodability checked: unencodable content throws NotJsonEncodable with the content message, and then an unencodable map throws it with the map message. |
| SingleContent.PublishableBodyEncodable | src/Apis/SingleContent.php:43-47 | A body built from validated fields always passes the encodability assertion. |
| SingleContent.PublishContentUpdate | src/Apis/SingleContent.php:39-54 | Invalid input throws the validation error and sends nothing. Valid input with an API key always sends a PUT to the config endpoint plus the content id, with body `{d, c, m}` and the API key header. Without a key, it sends nothing and fails the key assertion. A non-200 reply throws the mapped status exception, and a 200 with undecodable JSON throws `Api\Exception`. It returns exactly when the key is set and the server answers 200 with JSON. |

## Left out

- The HTTP transport and the PSR-17/PSR-18 factories and client. The reply is an input and the request an output. Client exceptions and network errors are not modelled.
- `http_build_query`'s percent-encoding: the query is kept as its ordered list of pairs, and the URI as base plus query.
- The internals of json_encode, json_decode and sha256. They are opaque functions in `Runtime`. Encodability means "no self-reference", so NaN, INF, invalid UTF-8 and the depth limit are not modelled.
- The cache store's own behaviour: TTL expiry, the 1000-item bound of the default store, and PSR-16 exceptions. The TTL is only recorded with each write.
- `setHttpClient`, `setRequestFactory`, `setStreamFactory` and the getters. They only assign or return fields holding foreign objects.
- Sorting.SortBy: orders strings byte-wise, both for `sort` of the content ids (src/Apis/MultipleContent.php:104) and for `ksort` of the params keys (src/CacheKeyBuilder.php:26). PHP compares two numeric strings by value, so for params `{"10.5": 1, "2.5": 2}` PHP puts `"2.5"` first where the model puts `"10.5"` first. For such ids or keys, PHP's cache key can differ from the model's, and PHP's key for ids can depend on their order. Numeric comparison is not modelled because it depends on PHP's numeric-string parsing, which is outside this model.
- PHP's conversion of numeric-string array keys such as `"1"` into integers. Keys stay strings.
- The keys of a keyed `$contentIds` array. The ids are a list.
- Option entries other than `refresh`, `serialized` and `fullResponse`, which the code never reads.
- The text of Assert's lazy exception message. Only the failing property paths are kept, in order.
- `mb_strlen` on multi-byte text. A description's length is its number of characters.
- `src/Client.php`, `src/ClientServices.php`, the two older formatters in `src/Exceptions/` and the examples. They are not part of this model.
- Assertions under `zend.assertions=-1`, where PHP would skip them. The model treats them as enabled.
- Config.ClientConfig.SetSemVer: follows the corrected check, so it refuses `"1.2.3\n"`, which the source accepts (see Findings).

## Findings

| source | as written | input that shows it | evidently intended | confidence | as-written member | corrected member |
|---|---|---|---|---|---|---|
| src/ClientConfig.php:180-181 | The pattern ends in `$` without the `D` modifier. PCRE's `$` also matches just before a final newline, so a version followed by `"\n"` passes and is stored with the newline. | `"1.2.3\n"` | Accept exactly `major.minor.patch` with nothing after the patch number. | not executed | Config.SemVerPatternAcceptsTrailingNewline | Config.SemVerIsRendered |
