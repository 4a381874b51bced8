# Variable-library search and replace, in Dafny

This project models the core of a VS Code extension that takes an Azure DevOps
variable library (a variable group) and replaces every `#{key}#` token of the
open document with that library's value for `key`. The model has three parts.

- **Token substitution** (`src/extension.ts`). The regex is `/#\{(.*?)\}#/g` and the
  replacer returns `replacements[key] || match`.
  - `TokenReplace` defines what a match is (`TokenAt`) and the scan that
    `String.prototype.replace` performs (`Scan`, `Keys`, `Substitute`).
  - It also gives a declarative reference grammar (`Tokenizes`). The proofs show
    that the scan is the only tokenization that grammar admits.
  - `TokenProperties` proves that substitution preserves text, leaves unresolved
    tokens verbatim, resumes scanning after each `}#` and never rescans inserted
    values. It also states the behaviour on concrete inputs.
  - `LibraryPick` models the glue around the scan: libraries become picker options,
    the picked option is found again by `Number(id)`, and a library's variables
    become the replacement map.
- **The cached client** (`src/azureDevOpsClient.ts`), in `DevOpsClient`.
  - It models the cache key, the freshness check, status classification, body
    validation and the `catch` classification.
  - It also models the two cache clears.
  - The clock and the network are parameters.
- **The configuration reader** (`src/configurationManager.ts`), in `Configuration`.
  It reads trimmed settings, checks organization, project and token in that
  order, and stores and deletes the token. The settings and the secret store are
  values.

Shared pieces:

- `Types` holds the records of `src/types.ts`.
- `Results` holds `Option` and `Result`.
- `JsStrings` holds the JavaScript string behaviour the core relies on:
  - `trim()` with ECMAScript white space;
  - the line terminators that `.` does not match;
  - `includes`;
  - `String(n)` and `Number(s)` for integers.

A non-greedy reading can suggest that `#{in{ne}r}#` captures `in{ne`. The regex
at `src/extension.ts:108` closes a match at the first `}#`, and `in{ne}r` holds
no `}#`, so the key is `in{ne}r` (`TokenProperties.ExampleInnerBraces`).

## Model

| member | source | states |
|---|---|---|
| JsStrings.Trim | src/configurationManager.ts:14-15 | the trimmed text is empty exactly when the input is all white space (line terminators included); otherwise it neither starts nor ends with white space; it is a contiguous slice of the input with only white space cut on either side |
| JsStrings.TrimIdempotent | src/configurationManager.ts:14-15 | trimming a trimmed setting changes nothing |
| JsStrings.NatToString | src/extension.ts:57 | `String(n)` of a non-negative integer is a non-empty run of decimal digits without a leading zero (except `0` itself) |
| JsStrings.NumberOfString | src/extension.ts:98-99 | `Number(String(id)) === id` for every integer id, so an option's id reads back as its library's id |
| JsStrings.IntToStringInjective | src/extension.ts:57 | distinct library ids give distinct option ids |
| JsStrings.IntToString | src/extension.ts:57 | `String(id)` for an integer id; its digits are stated by `JsStrings.NatToString`, its round trip by `JsStrings.NumberOfString`, its injectivity by `JsStrings.IntToStringInjective` |
| JsStrings.ParseInt | src/extension.ts:99 | `Number(s)` on an optional minus sign and decimal digits, `None` for `NaN`; that it inverts `String(id)` is stated by `JsStrings.NumberOfString` |
| JsStrings.Includes | src/azureDevOpsClient.ts:74 | `message.includes('fetch')`: some position of the text holds the substring; used by `DevOpsClient.Classify` and `DevOpsClientProperties.RejectionErrors` |
| TokenReplace.FindCloser | src/extension.ts:108 | the lazy `.*?` stops at the first `}#` from the search position, and none is found if a line terminator comes first; a result is a real `}#` with no line terminator and no earlier `}#` before it |
| TokenReplace.TokenEndsAtFirstCloser | src/extension.ts:108 | a match's closing `}#` is the first one after `#{`, and no line terminator lies before it |
| TokenReplace.TokenUnique | src/extension.ts:108 | at most one key matches at a given position |
| TokenReplace.MatchKey | src/extension.ts:108 | the search at one position returns a key exactly when a match starts there, and then a key that does match |
| TokenReplace.Head | src/extension.ts:108 | the segment taken at the head of the text is non-empty and is a prefix of the text |
| TokenReplace.Scan | src/extension.ts:108 | the matches and the characters between them, in the order `replace` visits them; stated by `TokenReplace.ScanRoundTrip`, `ScanTokenizes` and `ScanIsTheTokenization` |
| TokenReplace.Keys | src/extension.ts:108 | the captured keys in text order; stated by `TokenProperties.KeysOccurInText`, `TokenFreeIffNoKeys` and the examples |
| TokenReplace.Replacement | src/extension.ts:109 | `replacements[key] \|\| match`; stated by `TokenProperties.SubstituteToken`, `ExampleEmptyValue` and `ExampleResolvedAndMissing` |
| TokenReplace.Substitute | src/extension.ts:108-110 | the result of the `replace` call; stated by `TokenProperties.SubstituteToken`, `SubstitutePlain`, `UnresolvedUnchanged` and `NoTokensUnchanged` |
| TokenReplace.ScanRoundTrip | src/extension.ts:108 | the matches and the text between them spell out the whole document, in order, with nothing lost or duplicated |
| TokenReplace.ScanTokenizes | src/extension.ts:108 | the scan is a tokenization in the reference grammar: every match is taken where one starts, and a character is copied only where none starts |
| TokenReplace.TokenizesUnique | src/extension.ts:108 | the reference grammar admits only one tokenization of a text |
| TokenReplace.ScanIsTheTokenization | src/extension.ts:108 | every tokenization in the reference grammar equals the scan |
| TokenProperties.ScanToken | src/extension.ts:108 | a token at the head is one match, and scanning resumes right after its `}#` |
| TokenProperties.ScanPlain | src/extension.ts:108 | a run of characters without `#` is copied character by character and starts no match |
| TokenProperties.SubstituteToken | src/extension.ts:108-110 | a leading token yields its key first and is replaced by `replacements[key] \|\| match`; the rest is substituted independently, so the inserted value is never rescanned |
| TokenProperties.SubstituteLiteral | src/extension.ts:108-110 | where no match starts, the first character is copied and contributes no key |
| TokenProperties.SubstitutePlain | src/extension.ts:108-110 | a run without `#` is copied as is and yields no key |
| TokenProperties.ShortUnchanged | src/extension.ts:108-110 | a text shorter than `#{}#` has no key and is returned unchanged |
| TokenProperties.RenderUnresolved | src/extension.ts:109 | segments whose keys are all absent or empty-valued render back to their source text |
| TokenProperties.TokenFreeIffNoKeys | src/extension.ts:108 | the scan reports no key exactly when no match starts anywhere in the text |
| TokenProperties.NoTokensUnchanged | src/test/suite/extension.test.ts:60-66 | text with no match anywhere has no keys and comes back unchanged, whatever the replacements |
| TokenProperties.UnresolvedUnchanged | src/extension.ts:109 | when every key found is absent or maps to "", the document comes back unchanged, delimiters included |
| TokenProperties.EmptyMapUnchanged | src/extension.ts:103-110 | a library without variables changes nothing |
| TokenProperties.KeysOccurInText | src/extension.ts:108 | every key reported is a valid capture (no line terminator, no `}#`) whose `#{key}#` occurs in the text |
| TokenProperties.TwoTokens | src/test/suite/extension.test.ts:45-58 | two tokens separated by runs without `#` yield their two keys, in order |
| TokenProperties.TokenThenBraces | src/extension.ts:108-110 | the `#` of a consumed `}#` cannot open another match, so a following `{…}#` is literal text |
| TokenProperties.ResolvedAndMissing | src/extension.ts:109 | between plain runs, a key with a non-empty value is replaced and a key missing from the map stays verbatim |
| TokenProperties.ExampleTwoKeys | src/test/suite/extension.test.ts:45-58 | the keys of `Hello #{name}#, your age is #{age}#` are `name` then `age` |
| TokenProperties.ExampleInnerBraces | src/test/suite/extension.test.ts:68-80 | the keys of `#{outer}# and #{in{ne}r}#` are `outer` then `in{ne}r` |
| TokenProperties.ExampleNoOverlap | src/extension.ts:108-110 | `#{a}#{b}#` has the one key `a`, and with `a`→`1`, `b`→`2` it becomes `1{b}#` |
| TokenProperties.ExampleResolvedAndMissing | src/extension.ts:109 | with only `name` defined, `Hello #{name}#, age #{age}#` becomes `Hello Alice, age #{age}#` |
| TokenProperties.ExampleEmptyValue | src/extension.ts:109 | a variable whose value is "" leaves its token in place (`""` is falsy under `\|\|`) |
| TokenProperties.ExampleValueInsertedLiterally | src/extension.ts:108-110 | a value such as `$&#{x}#` is inserted verbatim: no `$` pattern expansion and no second substitution |
| TokenProperties.ExampleEmptyKey | src/extension.ts:108 | `#{}#` matches with the empty key |
| TokenProperties.ExampleLineBreak | src/extension.ts:108 | a line break between the braces prevents the match |
| LibraryPick.ToOption | src/extension.ts:56-59 | one library's option: labelled with its name, no description, and an id that `Number` reads back as the library's id |
| LibraryPick.ToOptions | src/extension.ts:56-59 | one option per library, in order; the i-th option's id is `String(id)` of the i-th library (canonical digits, see `JsStrings.NatToString`), its label the library's name, no description, and its id reads back as the library's id |
| LibraryPick.FindFrom | src/extension.ts:98-100 | the first library at or after a position with the given id, or none when no such library exists |
| LibraryPick.Select | src/extension.ts:98-100 | `find` yields a library exactly when the option's id is numeric and some library has that id, and then the first such library |
| LibraryPick.SelectOption | src/extension.ts:56-100 | picking the i-th option finds a library with the i-th id, the i-th library itself when ids are unique |
| LibraryPick.BuildReplacements | src/extension.ts:103-106 | the replacement map has exactly the variable names as keys, each mapped to that variable's value |
| LibraryPick.TokenOfVariable | src/extension.ts:103-110 | under a library's replacement map a token becomes the variable's value when the variable exists with a non-empty value, and stays as written otherwise |
| LibraryPick.SearchAndReplace | src/extension.ts:97-112 | a result is produced exactly when the picked option leads to a library |
| LibraryPick.SearchAndReplaceOption | src/extension.ts:97-112 | when library ids are unique, picking the i-th option substitutes the document with the i-th library's variables (with duplicate ids `find` takes the first library with that id, see `LibraryPick.Select`) |
| DevOpsClient.NewClient | src/azureDevOpsClient.ts:9-14 | a new client has an empty cache and the given time-to-live, 300000 ms by default |
| DevOpsClient.RequestUrl | src/azureDevOpsClient.ts:28 | the request URL; what it identifies is stated by `DevOpsClientProperties.RequestUrlIdentifiesPair` |
| DevOpsClientProperties.RequestUrlIdentifiesPair | src/azureDevOpsClient.ts:28 | with no `/` in the organizations, two configurations request the same URL exactly when they name the same organization and project |
| DevOpsClient.CacheKey | src/azureDevOpsClient.ts:20 | the key `organization/project`, shared by the fetch and the per-project clear (line 95); when it identifies the pair is stated by `DevOpsClientProperties.CacheKeyInjective` and `CacheKeyCollision` |
| DevOpsClient.IsFresh | src/azureDevOpsClient.ts:24 | an entry exists and is younger than the time-to-live; its role is stated by `DevOpsClientProperties.CacheHitIff` and `ExpiryIsStrict` |
| DevOpsClient.Attempt | src/azureDevOpsClient.ts:31-68 | the request yields libraries exactly when it was answered with an ok status and an array `value`, and then returns that array; a rejection passes its thrown value on, a failing status throws the status error, an ok body without an array `value` throws the invalid-format error, and an unreadable body passes on what reading it threw |
| DevOpsClient.StatusError | src/azureDevOpsClient.ts:39-54 | a non-ok response raises an error with its status code; 401, 404 and 403 get their own messages, and any other status gets `Failed to fetch variable libraries: <status> <statusText>. <text>`, with `Unknown error` when the text cannot be read |
| DevOpsClientProperties.ExampleGenericStatus | src/azureDevOpsClient.ts:50-53 | status 500 with text `ISE` and body text `x` gives `Failed to fetch variable libraries: 500 ISE. x` |
| DevOpsClient.Classify | src/azureDevOpsClient.ts:69-80 | an `ApiError` is rethrown as is; a `TypeError` mentioning `fetch` becomes the network error; every other thrown value becomes an error without a status code |
| DevOpsClient.GetVariableLibraries | src/azureDevOpsClient.ts:19-82 | the time-to-live never changes, and the cache changes only on a successful call |
| DevOpsClient.ClearCache | src/azureDevOpsClient.ts:87-89 | the cache is emptied and the time-to-live kept |
| DevOpsClient.ClearCacheForProject | src/azureDevOpsClient.ts:94-97 | exactly the pair's entry is removed; every other entry is kept as it was |
| DevOpsClientProperties.CacheHitIff | src/azureDevOpsClient.ts:20-26 | the call ignores the network and leaves the client unchanged exactly when the pair's entry is younger than the time-to-live, and then returns the cached data |
| DevOpsClientProperties.ExpiryIsStrict | src/azureDevOpsClient.ts:24 | an entry exactly one time-to-live old is stale, and one a millisecond younger is fresh |
| DevOpsClientProperties.MissStoresSuccess | src/azureDevOpsClient.ts:56-68 | on a miss, a successful array body is returned and stored under the pair's key with the second clock reading, and no other entry changes |
| DevOpsClientProperties.OnlySuccessWrites | src/azureDevOpsClient.ts:31-81 | every error leaves the client unchanged, and a changed client means a successful fetch whose data was stored |
| DevOpsClientProperties.StatusErrors | src/azureDevOpsClient.ts:39-54 | on a miss, 401, 404 and 403 raise their own messages with that code, and any other non-2xx status raises `Failed to fetch variable libraries: <status> <statusText>. <text or Unknown error>` with its code; the client is unchanged |
| DevOpsClientProperties.InvalidFormat | src/azureDevOpsClient.ts:56-60 | on a miss, an ok response whose `value` is missing or not an array raises the invalid-format error without a status code, and nothing is cached |
| DevOpsClientProperties.RejectionErrors | src/azureDevOpsClient.ts:69-80 | on a miss, a rejected request surfaces as the network error for a `fetch` `TypeError`, otherwise as the unexpected-error message with the thrown message or `Unknown error` |
| DevOpsClientProperties.BodyReadErrors | src/azureDevOpsClient.ts:56-80 | on a miss, an ok response whose body cannot be read surfaces through the catch block: an `ApiError` as is, a `fetch` `TypeError` as the network error, anything else as the unexpected-error message with the thrown message or `Unknown error`, with no status code unless it was an `ApiError`; nothing is cached |
| DevOpsClientProperties.SecondFetch | src/azureDevOpsClient.ts:19-68 | after a successful fetch, a second call within the time-to-live returns the stored data without the network; once the time-to-live has elapsed, it returns what it would on an empty cache |
| DevOpsClientProperties.ClearForProjectIdempotent | src/azureDevOpsClient.ts:94-97 | clearing a pair without an entry changes nothing, and clearing twice equals clearing once |
| DevOpsClientProperties.ClearedMeansMiss | src/azureDevOpsClient.ts:87-97 | after either clear, the next fetch for the pair misses the cache |
| DevOpsClientProperties.ClearUndoesStore | src/azureDevOpsClient.ts:94-97 | when the pair had no entry before the fetch, clearing it afterwards restores the cache as it was before the fetch |
| DevOpsClientProperties.CacheKeyInjective | src/azureDevOpsClient.ts:20 | when the organization contains no `/`, two pairs share a key exactly when they are equal |
| DevOpsClientProperties.CacheKeyCollision | src/azureDevOpsClient.ts:20 | without that restriction, `a/b` + `c` and `a` + `b/c` share a cache entry |
| DevOpsClientProperties.DefaultTimeout | src/azureDevOpsClient.ts:12 | the default time-to-live is five minutes |
| Configuration.GetConfig | src/configurationManager.ts:12-35 | the read succeeds exactly when trimmed organization and project are non-empty and a non-empty token is stored, and then returns them; otherwise it fails with the organization, project or token message, checked in that order |
| Configuration.IsConfigured | src/configurationManager.ts:37-47 | true exactly when the trimmed organization and project are non-empty and a non-empty token is stored |
| Configuration.TrimmedSetting | src/configurationManager.ts:14-15 | a string setting read with default `''` and trimmed: empty when unset; otherwise the setting's own text with only the surrounding white space cut, empty exactly when that text is all white space, and neither starting nor ending with white space |
| Configuration.Organization | src/configurationManager.ts:14 | the `org` setting through `Configuration.TrimmedSetting`; that a read returns it is stated by `ConfigurationProperties.ConfigComesFromSettings` |
| Configuration.Project | src/configurationManager.ts:15 | the `project` setting through `Configuration.TrimmedSetting`; that a read returns it is stated by `ConfigurationProperties.ConfigComesFromSettings` |
| Configuration.GetCacheTimeout | src/configurationManager.ts:52-55 | the configured value, or the client's 300000 ms default when unset |
| Configuration.StorePAT | src/configurationManager.ts:60-62 | the token is stored under the extension's secret key and no other secret changes |
| Configuration.DeletePAT | src/configurationManager.ts:67-69 | the token is removed and no other secret changes |
| Configuration.GetOrgAndProject | src/configurationManager.ts:144-154 | the trimmed pair, or none (`null`) exactly when either name is blank |
| Configuration.ValidateRequired | src/configurationManager.ts:85-87 | an input-box value is rejected, with the given message, exactly when it holds no non-white-space character |
| ConfigurationProperties.ConfigIsClean | src/configurationManager.ts:12-35 | a successful read has non-empty organization and project without surrounding white space, and a non-empty token |
| ConfigurationProperties.ConfigComesFromSettings | src/configurationManager.ts:14-34 | a successful read returns the `org` and `project` settings themselves, each with only its surrounding white space cut |
| ConfigurationProperties.BlankTokenAccepted | src/configurationManager.ts:26-28 | the token is not trimmed, so a blank token passes the check verbatim |
| ConfigurationProperties.OrgAndProjectAgreesWithConfig | src/configurationManager.ts:144-154 | the display pair is missing only when the read fails, agrees with a successful read, and is present with a failed read only when the token is missing |
| ConfigurationProperties.StoreThenRead | src/configurationManager.ts:60-62 | after storing a non-empty token, a read with both names set returns exactly that token |
| ConfigurationProperties.DeleteThenRead | src/configurationManager.ts:67-69 | after deleting the token, the read fails, and it fails on the token when both names are set |
| ConfigurationProperties.SettingsAreTrimmed | src/configurationManager.ts:14-15 | surrounding white space in the organization and project settings does not change the read |
| ConfigurationProperties.CacheTimeoutDefaultsAgree | src/configurationManager.ts:54 | an unset timeout setting gives a client with the client's own default |

## Left out

- User interface: the quick pick, input boxes, information and warning messages, and the editor write-back (`replaceFileContents`). The pick and the document text are parameters.
- The prompt flow of `promptForConfiguration` (src/configurationManager.ts:74-139) is left out as interaction and settings writes. Only its input validators are modelled (`Configuration.ValidateRequired`).
- The network is a parameter: `axios.get` in `getVarLibs` (src/extension.ts:39-61) and `fetch` in the client. The model does not build the `Authorization` header, because Base64 encoding of `nobody:<pat>` is not modelled.
- Time is a parameter. The client reads `Date.now()` twice, so it takes two values: `now` for the freshness check and `storedAt` for the cache write.
- The command in `src/extension.ts` fetches through `axios` and does not call the client or the configuration reader. The model treats those classes on their own, as their source defines them.
- The `vars!` dereference with no library found throws a `TypeError` in the source. `LibraryPick.SearchAndReplace` models it as `None`. An absent active editor (`text` undefined) is not modelled: the document text is always present.
- Replacement maps hold own keys only. JavaScript's inherited object properties (for example a token `#{constructor}#`) are not modelled.
- `Number(s)` is modelled only on an optional minus sign followed by decimal digits, which covers every output of `String(id)` for an integer id. Hexadecimal, exponent, white-space-padded and empty inputs are not modelled.
- Ids are unbounded integers. IEEE-754 rounding of ids beyond 2^53 is not modelled.
- JavaScript strings are UTF-16 code units, and the model uses characters. The delimiters and the line terminators are all in the Basic Multilingual Plane, so matches fall at the same places.
- `console.log` calls and the `count` field of the response body are not used by the core.
- DevOpsClient.GetVariableLibraries: its own contract states only that the time-to-live is kept and that only success writes. What a hit, a miss, each status, each body and each thrown value produce is stated by the `DevOpsClientProperties` lemmas (`CacheHitIff`, `MissStoresSuccess`, `StatusErrors`, `InvalidFormat`, `BodyReadErrors`, `RejectionErrors`).
- The code keeps no report of replaced or missing keys and has no Bearer (sign-in) authentication, so the model has neither.
- Each call is one atomic step. In the source, `getVariableLibraries` awaits between the freshness check (src/azureDevOpsClient.ts:24) and the cache write (src/azureDevOpsClient.ts:63-66). So two overlapping misses for one pair both reach the network, and a clear that runs while a fetch is in flight is undone by that fetch's write. `DevOpsClient.GetVariableLibraries` takes the client state once and returns it once, so it cannot express either interleaving.
