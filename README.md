# Proxy-node renaming scripts, modelled in Dafny

Three Sub-Store node operators take a list of proxy-node records and rewrite the
node names from an IP lookup:

- `entrances.js` enriches each node with its entrance data. For each node it
  builds a cache key. It then reuses a cached success or skips a cached
  failure; otherwise it looks the node up (a local database in `internal`
  mode, or a remote API behind a retrying `http` helper), validates the answer
  with the `valid` template, renames the node with the `format` template,
  attaches `_entrance` and caches the outcome. A post-pass can drop failed
  nodes and strips `_entrance` unless asked to keep it.
- `modified_sub-storenode.js` walks the list in windows of ten. For every node
  whose server is an IP (every node when `onlyFlagIP` is off; it is on by
  default, line 5) it asks `ping0.cc` for the country code, passes the
  name through `removeFlag`, and prefixes the country's flag emoji. The comment
  says `removeFlag` strips the flags already in the name, but its regular
  expression is over-escaped: it removes no flag and can delete ASCII text (see
  "Findings"). The model runs the function as written.
- `name.js` does the same with `ip-api.com`. It accepts the answer only when
  `status` is `"success"`, and it prefixes the flag without removing an old one.

The model has seven modules:

- `JsValue` (`js_value.dfy`): JavaScript values (`undefined`, `null`,
  booleans, integers, strings, arrays, objects), truthiness, `String(v)`,
  property reads that do and do not throw, and destructuring with a default.
  A node is a map from field name to value.
- `Flags` (`flags.dfy`): `getFlagEmoji` (code units, `127397 + unit`, the TW
  to CN replacement), `String.prototype.trim`, and `removeFlag` both as
  written and as evidently intended.
- `EntranceLookup` (`entrance_lookup.dfy`): `lodash_get` (path normalisation,
  split, walk), the retry loop of `http`, `parseAPIResponse` and `requestAPI`.
- `Entrances` (`entrances.dfy`): the cache key, `check` as a pure transition
  `CheckStep` plus an in-place method `Check` over an array of nodes and a
  `Cache` object, the run over all nodes, the post-pass and `operator`.
- `FlagBatches` (`flag_batches.dfy`): the batching loop shared by both flag
  scripts, with the per-node rule and the lookup answers as parameters.
- `SubStoreNode` (`sub_store_node.dfy`) and `NameScript` (`name_script.dfy`):
  each script's `queryIpApi` decision, its per-node rule and its `operator`.
  The `SubStoreNode` rule takes `removeFlag` as a parameter; its `operator`
  passes the as-written function, and the lemmas state the rule both with that
  function and with the corrected one.

Everything foreign is a parameter and the model decides nothing for it: the
`format` and `valid` templates (None when the template throws), the
serialiser of the key fields, the `uniq_key` pattern test, `JSON.parse`
(None when it throws), `ProxyUtils.isIP`, the transport behind `$.http`, the
`curl` run, and the GeoIP and ASO databases. The lookup answer for node `i`
is given up front as `lookups(i)` or `answers(i)`. In `Entrances` the model
consults it only when the code would make the call, and records whether it
did. In `name.js` the query is made for every node that is not skipped; in
`modified_sub-storenode.js` only for such a node whose name is a string, since
`removeFlag` throws first otherwise (line 24). The model of the flag scripts
does not record whether the query was made.

## Model

| member | source | states |
|---|---|---|
| Entrances.CacheKey | entrances.js:129-133 | `generateCacheKey`: `entrance:` followed by `url`, `format`, `internal` and the serialised `uniq_key` fields. Its behaviour is stated by `CacheKeyShared` and `SameServerSameKey`. |
| Entrances.CacheKeyShared | entrances.js:129-133 | Two nodes share a cache key exactly when their serialised `uniq_key` fields agree. With an injective serialiser, exactly when those fields themselves agree. Nothing else about the node enters the key. |
| Entrances.SameServerSameKey | entrances.js:129-133 | With the default `uniq_key` `^server$` (line 48), nodes with the same `server` get the same key, whatever their other fields. |
| Entrances.CheckStep | entrances.js:91-122 | `check` on one node as a transition over the node and the cache. Its behaviour is stated case by case by the lemmas below, from `CheckTouchesOnlyNameAndEntrance` to `CachedMeansNoLookup`, and `Check` is proved against it. |
| Entrances.CheckTouchesOnlyNameAndEntrance | entrances.js:91-122 | A check changes no field other than `name` and `_entrance`. |
| Entrances.CachedSuccess | entrances.js:96-102 | With caching on and a cached `{ api }` with a truthy `api`, the node is renamed by the template and gets `_entrance := api`. No lookup is made and the cache is not written. |
| Entrances.CachedFailureSkips | entrances.js:97-106 | A cached failure (`{}`, or `{ api }` with a falsy `api`) without `ignore_failed_error` leaves the node and the cache unchanged, with no lookup. |
| Entrances.IgnoredFailureIsAMiss | entrances.js:97-110 | With `ignore_failed_error`, a cached failure (`{}`, or `{ api }` with a falsy `api`) is checked exactly as if the key were absent. |
| Entrances.SharedKeySharesRecord | entrances.js:92-121 | With caching on and `ignore_failed_error` off, after one node is checked its key is cached and a second node with the same key is not looked up. The first node carries the api of a usable cached `{ api }`, and the second either stays as it was or carries that same api record. |
| Entrances.AcceptedLookup | entrances.js:110-114 | A valid lookup renames and annotates the node and, with caching on, stores `{ api }` under the node's key. |
| Entrances.RejectedLookup | entrances.js:110-121 | A thrown lookup, an invalid one, or a valid one whose `format` template throws leaves the node unchanged and, with caching on, stores `{}` under its key. |
| Entrances.CacheDisabled | entrances.js:92-97 | With caching off, every node is looked up and the cache is neither read nor written. |
| Entrances.CheckRecordsKey | entrances.js:114-120 | A check never removes a cache key. With caching on, the node's key is cached afterwards. |
| Entrances.CachedMeansNoLookup | entrances.js:96-106 | With caching on and `ignore_failed_error` off, a node whose key is cached is not looked up. |
| Entrances.Check | entrances.js:91-122 | The in-place check leaves the array and the cache exactly as `CheckStep` prescribes. Only slot `i` changes, and the method reports whether it looked the node up. |
| Entrances.RunChecksEachNodeOnce | entrances.js:70-73 | In a run, node `j` ends up exactly as its own check made it, from its original value and the cache left by nodes `0..j-1`. Positions are kept. |
| Entrances.RunKeepsKeys | entrances.js:114-120 | Cache keys only accumulate during a run. |
| Entrances.RunRecordsKeys | entrances.js:114-120 | With caching on, a node's key is cached from the moment it has been checked. |
| Entrances.RunLooksUpEachKeyOnce | entrances.js:92-114 | With caching on and `ignore_failed_error` off, a sequential run looks up a key at most once. A node sharing its key with an earlier node, or whose key was cached before the run, is never looked up. |
| Entrances.RunWithoutCache | entrances.js:92-121 | With caching off, every node is looked up and the cache stays as it was. |
| Entrances.KeepEnrichedAppend | entrances.js:76-78 | The `remove_failed` filter keeps relative order: filtering `a + b` gives the filtered `a` followed by the filtered `b`. |
| Entrances.PostPass | entrances.js:76-83 | The post-pass: the `remove_failed` filter, then deletion of `_entrance` unless `entrance` is set. Its behaviour is stated by `PostPassKeepsOrder`, `PostPassStrips` and `PostPassRemovesFailed`. |
| Entrances.PostPassKeepsOrder | entrances.js:76-83 | For every setting of the two flags, the post-pass keeps the run's order (it distributes over concatenation). Without `remove_failed` it drops no node, and with `entrance` as well it returns the nodes as they are. |
| Entrances.PostPassStrips | entrances.js:80-83 | Without `entrance`, whatever `remove_failed` says, no output node has `_entrance` and each output node is an input node with only `_entrance` deleted. Without `remove_failed` as well, output node `i` is input node `i` stripped. |
| Entrances.PostPassRemovesFailed | entrances.js:76-83 | With `remove_failed`, whatever `entrance` says, every node with a truthy `_entrance` is in the output (stripped unless `entrance` is set), and every output node comes from such a node. |
| Entrances.StripEntrances | entrances.js:82 | Deleting `_entrance` in place turns each slot into its stripped value. |
| Entrances.Operator | entrances.js:34-85 | The nodes and the cache end as the sequential run of checks leaves them, and the result is the post-pass of the checked nodes. |
| EntranceLookup.LodashGet | entrances.js:245-255 | `lodash_get` as the walk over the normalised, split path. Its behaviour is stated by `GetByPath`, `WalkReachesEnd`, `WalkStopsAtUndefined` and `LodashGetOfName`. |
| EntranceLookup.GetByPath | entrances.js:245-255 | The loop of `lodash_get` returns what the recursive walk over the normalised, split path returns. |
| EntranceLookup.WalkReachesEnd | entrances.js:248-254 | When no step yields `undefined`, `lodash_get` returns the value at the end of the path. |
| EntranceLookup.WalkStopsAtUndefined | entrances.js:248-252 | As soon as some step yields `undefined`, `lodash_get` returns the default. |
| EntranceLookup.NormalizeBracket | entrances.js:246 | `[n]` followed by anything becomes `.n` followed by the normalised rest. |
| EntranceLookup.NormalizeWithoutBrackets | entrances.js:246 | A path without `[` is left as it is. |
| EntranceLookup.JoinSplit | entrances.js:246 | Joining the pieces of `split('.')` with `.` gives back the string. |
| EntranceLookup.SplitPiecesHaveNoDot | entrances.js:246 | No piece of `split('.')` contains a dot. |
| EntranceLookup.PathPiecesExample | entrances.js:246 | The path `a[0].b` is walked as the pieces `a`, `0`, `b`. |
| EntranceLookup.LodashGetOfName | entrances.js:245-255 | A path that is one property name reads that property and falls back to the default when it is `undefined`. |
| EntranceLookup.Http | entrances.js:214-236 | At most `RETRIES` retries are made, so at most `RETRIES + 1` attempts. Retry `k` waits `RETRY_DELAY * k`. Every attempt before the returned one failed, and the first response is returned. A failure comes back only after all retries are spent. The total wait is `RETRY_DELAY * n(n+1)/2`. |
| EntranceLookup.ParseApiResponse | entrances.js:201-207 | `parseAPIResponse`. Its behaviour is stated by `ParseApiResponseOfStringBody` and `ParseApiResponseWithoutBody`. |
| EntranceLookup.ParseApiResponseOfStringBody | entrances.js:201-207 | A string `body` comes back parsed when it is JSON, and as the text itself when it is not. |
| EntranceLookup.ParseApiResponseWithoutBody | entrances.js:201-207 | A response without a `body` yields the string `"undefined"`. |
| EntranceLookup.RequestApi | entrances.js:140-165 | In `internal` mode the answer is `{ countryCode, aso }` from the databases, each `''` when unknown, with no HTTP. Otherwise every attempt of `http` goes to the URL the template formatted for the node, retry `k` waits `RETRY_DELAY * k`, and the answer is the parsed response of the first successful attempt. The lookup fails only after all `RETRIES` retries have failed. Any throw becomes a failed lookup. |
| FlagBatches.WindowsPartition | modified_sub-storenode.js:15-38 | The windows `[i, min(i+10, n))` for `i = 0, 10, ...` number `ceil(n/10)`, and each index lies in exactly one of them, window `k / 10`. |
| FlagBatches.RunInBatches | modified_sub-storenode.js:15-38 | The loop visits exactly those windows in order. Every node gets the rule applied once, with its own answer, and the same array comes back. |
| JsValue.FlagWithDefaultTrue | modified_sub-storenode.js:5 | `const { onlyFlagIP = true } = $arguments` is true when the property is absent, and its truthiness otherwise. |
| SubStoreNode.QueryIpApi | modified_sub-storenode.js:45-72 | The query resolves exactly when `curl` succeeds with empty stderr and prints JSON that is not `null`. It then resolves with `country_code`, whatever that holds. |
| SubStoreNode.Rename | modified_sub-storenode.js:19-34 | The per-node rule, with `removeFlag` as a parameter. Its behaviour is stated by `RenameSkipsNonIP`, `RenameEffect`, `RenameAsWrittenDeletesText`, `RenameTwiceAsWrittenStacksFlags` and `RenameTwiceKeepsOneFlag`. |
| SubStoreNode.RenameSkipsNonIP | modified_sub-storenode.js:21 | With `onlyFlagIP`, a node whose server is not an IP is untouched. |
| SubStoreNode.RenameEffect | modified_sub-storenode.js:22-33 | Only `name` can change. It becomes `flag + ' ' + removeFlag(name)` exactly when the node is not skipped, its name is a string and the query gave a string code. Every failure leaves the node as it was. With `removeFlag` as written, the new name keeps every regional indicator of the old name, behind the new flag. |
| SubStoreNode.RenameAsWrittenDeletesText | modified_sub-storenode.js:24-30 | As written, the rule renames `"CUDA HK"` with code `HK` to the HK flag followed by `" HK"`: the text `CUDA` is lost. |
| SubStoreNode.RenameTwiceAsWrittenStacksFlags | modified_sub-storenode.js:24-30 | As written, running the rule twice keeps the first flag: the name carries the second flag, then the first, then the original name's regional indicators. |
| SubStoreNode.RenameTwiceKeepsOneFlag | modified_sub-storenode.js:24-30 | With the corrected `removeFlag`, running the rule again replaces the flag instead of stacking a second one. |
| SubStoreNode.Operator | modified_sub-storenode.js:8-40 | Every node of the array is renamed exactly once by the rule with the as-written `removeFlag`, with `onlyFlagIP` read from the arguments with default true. |
| Flags.FlagEmoji | modified_sub-storenode.js:75-83 | `getFlagEmoji`. Its behaviour is stated by `FlagEmojiAt`, `FlagEmojiOfLetter`, `FlagEmojiOfTwoLetters` and `TaiwanGetsChinaFlag`. |
| Flags.FlagEmojiAt | modified_sub-storenode.js:75-83 | For a code of BMP characters, getFlagEmoji emits one code point per character, `127397 + code(upper(c))`, except that a TW pair becomes CN. `name.js:52-60` is identical. |
| Flags.FlagEmojiOfLetter | modified_sub-storenode.js:76-79 | An ASCII letter of either case maps to a regional indicator in U+1F1E6..U+1F1FF. |
| Flags.FlagEmojiOfTwoLetters | modified_sub-storenode.js:75-83 | A two-letter code yields exactly two regional indicators, one flag. |
| Flags.ReplaceTaiwanAt | modified_sub-storenode.js:82 | The replacement changes the two halves of each TW flag into C and N, and keeps every other code point. |
| Flags.ReplaceTaiwanLeavesNone | modified_sub-storenode.js:82 | No TW flag survives the replacement. |
| Flags.TaiwanGetsChinaFlag | name.js:52-60 | `getFlagEmoji("tw") == getFlagEmoji("CN")`, the CN flag. |
| Flags.Trim | modified_sub-storenode.js:89 | `String.prototype.trim`. Its behaviour is stated by `TrimSpec`, `TrimIdempotent` and `TrimSkipsLeadingSpace`. |
| Flags.TrimSpec | modified_sub-storenode.js:89 | `trim` returns the middle of the string between two whitespace-only margins, with no whitespace at either end. |
| Flags.TrimIdempotent | modified_sub-storenode.js:89 | Trimming twice is trimming once. |
| Flags.TrimSkipsLeadingSpace | modified_sub-storenode.js:89 | A leading space does not change the trimmed result. |
| Flags.RemoveFlagAsWrittenIsTrimmed | modified_sub-storenode.js:86-90 | The result of `removeFlag` as written has no whitespace at either end. |
| Flags.RemoveFlagAsWritten | modified_sub-storenode.js:86-90 | `removeFlag` as written. Its behaviour is stated by the lemmas from `RemoveFlagAsWrittenIsTrimmed` to `RemoveFlagAsWrittenKeepsRegionals`. |
| Flags.RemoveFlagAsWrittenKeepsFlag | modified_sub-storenode.js:88 | As written, `removeFlag("🇺🇸 US")` returns `"🇺🇸 US"` unchanged. |
| Flags.RemoveFlagAsWrittenKeepsRegionals | modified_sub-storenode.js:86-90 | As written, `removeFlag` never deletes a regional indicator: the result holds exactly the regional indicators of the input, in order, so no flag is ever removed. |
| Flags.RemoveFlagAsWrittenDeletesText | modified_sub-storenode.js:88 | As written, `removeFlag` deletes ASCII text that fits its character classes, e.g. `"CUDA HK"` becomes `"HK"`. |
| Flags.RemoveFlag | modified_sub-storenode.js:86-90 | `removeFlag` as evidently intended: remove each flag, then trim. Its behaviour is stated by `RemoveFlagLeavesNoFlag`, `RemoveFlagIdempotent` and `RemoveFlagAfterPrefix`. |
| Flags.RemoveFlagLeavesNoFlag | modified_sub-storenode.js:86-90 | The corrected `removeFlag` leaves no pair of regional indicators in its result. |
| Flags.RemoveFlagIdempotent | modified_sub-storenode.js:86-90 | The corrected `removeFlag` is idempotent. |
| Flags.RemoveFlagAfterPrefix | modified_sub-storenode.js:29 | Removing flags from `flag + ' ' + name` gives what removing flags from `name` gives. |
| NameScript.QueryIpApi | name.js:30-50 | The query resolves exactly when there is a response whose `body` parses to a non-null value with `status === "success"`. It then resolves with `countryCode`; every other case rejects. |
| NameScript.Prefix | name.js:11-21 | The per-node rule of `name.js`. Its behaviour is stated by `PrefixEffect` and `PrefixTwiceStacksFlags`. |
| NameScript.PrefixEffect | name.js:12-21 | Only `name` can change. It becomes `flag + ' ' + String(name)` exactly when the node is not skipped and the query gave a string code. |
| NameScript.PrefixTwiceStacksFlags | name.js:18 | No flag is removed first, so a second run puts a second flag in front of the first. |
| NameScript.ArgvFlagAlwaysOn | name.js:3 | `onlyFlagIP` is destructured from the `process.argv` array, which has no such property, so it is always true. |
| NameScript.Operator | name.js:5-28 | Every node of the array is prefixed by the rule exactly once, with `onlyFlagIP` always on. |

## Left out

- Concurrency: `executeAsyncTasks` with its `concurrency` limit (entrances.js:70-73) and `Promise.all` over a window are replaced by checking nodes one after another in list order. With real concurrency, two nodes with the same key can both miss the cache, so `Entrances.RunLooksUpEachKeyOnce` holds only for the sequential model.
- Timing: `sleep(1000)` between windows, `$.wait` in `http`, the request `timeout` and `Date.now` are not modelled. `EntranceLookup.Http` records each retry delay as a value instead of waiting.
- Templating by `eval` (`formatString`, `isValid`, `formatter`, whose source is truncated at entrances.js:263) is a parameter: a function that returns a string or a boolean, or None when it throws.
- `JSON.parse`, `JSON.stringify` and `new RegExp(uniq_key).test` are parameters. The cache-key lemmas that need it assume the serialiser is injective.
- The network, `exec('curl …')`, `ProxyUtils.isIP`, `ProxyUtils.MMDB` and `$utils.geoip`/`ipaso` are parameters. So is the environment plumbing: `$arguments`, `process.env`, the platform check and the exception it throws (entrances.js:55-67).
- `retries` and `retry_delay` (defaults 1 and 1000) are arguments of `EntranceLookup.Http` and `EntranceLookup.RequestApi`. The model does not read them from `$arguments`. The HTTP `method` (default `get`), the `User-Agent` header and the `timeout` are folded into the opaque `transport` parameter.
- `cache` is not declared in lines 1-263 of entrances.js, the part of the file this model covers (it is used at lines 96, 114, 116 and 120). The `Entrances.Cache` object stands for the store the host is assumed to provide.
- The header comment (entrances.js:22 and 24) promises different `format` and `valid` defaults in `internal` mode. Lines 42-43 do not implement this. In `internal` mode the default `valid` template reads `api.ip || api.query`, fields that the record built at lines 146-149 does not have. The model takes the templates as parameters, so it does not fix either default.
- EntranceLookup.Http: `RETRIES` and `RETRY_DELAY` come from `parseFloat` and can be fractional or NaN. The model takes integers.
- Numbers are integers, so floating-point printing and NaN are not modelled. Neither are inherited prototype properties.
- `toUpperCase` is modelled for ASCII letters only, and `getFlagEmoji` on a code with non-ASCII letters is not claimed to match JavaScript.
- Logging (`$.info`, `$.error`, `console.*`) and the example driver at name.js:66-77 are left out.
- Aliasing: nodes are values. If the same node object appears twice in the list, JavaScript renames it twice through both slots, and the model does not capture this. Nor does it capture that deleting `_entrance` in the post-pass also changes the objects the caller still holds.
- Entrances.CacheKey: the key holds `url`, `format`, `internal` and the `uniq_key` fields (entrances.js:130). The `valid` template is not part of it.
- Entrances.CacheKey: a node is an unordered map, so the model loses the order in which the fields were inserted. `JSON.stringify` at entrances.js:130-131 depends on that order: two nodes with the same selected fields written in different orders get different keys in JavaScript and the same key in the model. `CacheKeyShared` and `RunLooksUpEachKeyOnce` therefore hold for the model only, where nodes with equal selected fields share a key.
- JsValue.Prop: the `length` of a string and its indexes count Unicode scalar values. JavaScript counts UTF-16 code units, so the two differ for characters outside the Basic Multilingual Plane.
- JsValue.FlagWithDefaultTrue: returns true when `$arguments` itself is `null` or `undefined`. The destructuring would throw there instead.

## Findings

| source | as written | input that shows it | evidently intended | confidence | as-written member | corrected member |
|---|---|---|---|---|---|---|
| modified_sub-storenode.js:88 | The regex literal `/[\\uD83C][\\uDDE6-\\uDDFF][\\uD83C][\\uDDE6-\\uDDFF]/g` doubles its backslashes. Its classes are therefore sets of ASCII characters, `\ u D 8 3 C` and `u` plus the range `6`..`\`, rather than UTF-16 surrogates. | `removeFlag("🇺🇸 US")` returns `"🇺🇸 US"` unchanged, and `removeFlag("CUDA HK")` returns `"HK"` | Remove each flag emoji (a pair of regional indicators), then trim | not executed | Flags.RemoveFlagAsWrittenKeepsRegionals | Flags.RemoveFlagLeavesNoFlag |
