# dexi-java-app-sdk core, modelled in Dafny

This project models the decision logic of the dexi.io Java app SDK:

- **The layered configuration store.** `DexiConfig` and its older variant `Config` each keep a process-wide `Properties` table. `load` fills it in three stages. A local file comes first: the default file for `DexiConfig`, or the four-file `appName` cascade for `Config`. Next comes the file a configuration-URL variable names. Last come the `DEXI_APP_*` environment variables. Files merge first-wins: a key is written only while it is absent. The environment overwrites.
- **Base-URL normalisation and the configuration-header guard** of `DexiClientFactory`.
- **Offset parsing and the bean defaults** of `Query`.
- **Token payload framing and key-length validation** of `OAuthEncryptionService`. The cipher is abstract.
- **The access token of `DexiAuth`:** the lower-case hex form of an MD5 digest. The hex encoding is modelled; MD5 itself is abstract.
- **The `FILE:<mime>;<size>;<uuid>` recogniser** of `DexiFileClient`, and the file-id extraction.

Modules, one file each:

| module | contents |
|---|---|
| `Wrappers` | `Option`, `Result` and `Outcome` (pass or fail with an error) |
| `JavaText` | the `java.lang.String` and `StringUtils` operations the code relies on |
| `ConfigStore` | what both loaders share: the table class `PropertyTable`, both merge policies, environment-name decoding, and location dispatch |
| `DexiConfig` | the `DexiConfig` loader |
| `Config` | the `Config` loader |
| `DexiClientFactory` | base-URL normalisation and the header guard |
| `Query` | offset parsing and the `Query` bean |
| `OAuthEncryptionService` | key checks and payload framing |
| `DexiAuth` | the hex encoding and the access token |
| `DexiFileClient` | the file-field recogniser and lookup |

Both loaders state their stateful operations against pure functions of the old table:

- `MergeFirstWins` and `ApplyEnvironment` characterise every key's value after a merge.
- `LoadAndMerge`, `UrlStage`, `DexiConfig.Resolve` and `Config.Resolve` describe a whole stage or load. Each returns the new table and whether an exception ended it.

The methods of `PropertyTable`, `DexiConfig.DexiConfig` and `Config.Config` are proved equal to these functions. Lemmas prove the precedence rules, idempotence and stability about the functions.

Where the code and its documentation disagree, the model follows the code:

- `readEnvironment` strips five characters (`DEXI_`), not the nine of `DEXI_APP_`, and lower-cases the rest. Every selected name therefore decodes to `app.<rest in lower case>`. `DEXI_APP_dexi_baseUrl` becomes `app.dexi_baseurl`, not `dexi.baseUrl`. So no environment variable can reach the bare keys the getters read.
- Only the scheme `http`, in any letter case, is fetched over the network. `https:` locations are looked up as class-path resources.
- `DexiConfig` loads the default local file before the URL file, so the local file wins on shared keys.
- `Config` reads its configuration URL from `DEXI_APP_CONFIG_URL`, the constant the code uses.
- `DexiConfig.readLocalConfiguration` selects the YAML reader for all four supported extensions.

Two classes the code uses are not shown in full, so the model fills them in:

- The `OAuth2Tokens` class is not among the source files. The model gives it `OAuthTokens`' fields and copying constructor (`oauth/OAuthTokens.java`).
- `OAuth1Tokens(EncryptedOAuthTokens)` reads `scope` and `expiresInSeconds`, which the `EncryptedOAuthTokens` class shown does not declare. So the model's `EncryptedOAuthTokens` carries those two fields. The constructor from `OAuth1Tokens` is taken to copy the shared fields.

The file pattern `^(FILE:)([^;]*);([^;]*);(uuid)$` has no MULTILINE flag. Under `find()` its `$` matches at the end of input, or before one final line terminator. The terminators are `\n`, `\r\n`, `\r`, U+0085, U+2028 and U+2029. The recogniser accepts exactly that, and reports what the terminator was.

## Model

| member | source | states |
|---|---|---|
| ConfigStore.PropertyTable.constructor | src/main/java/io/dexi/config/DexiConfig.java:94 | the table starts empty |
| ConfigStore.PropertyTable.Clear | src/test/java/io/dexi/config/DexiConfigIT.java:17-20 | `Properties.clear` empties the table; the tests reset the loader this way, through the live table that getProperties returns |
| ConfigStore.PropertyTable.GetProperty | src/main/java/io/dexi/config/DexiConfig.java:213-219 | getProperty answers with the key's value exactly when the key is present, and null otherwise |
| ConfigStore.PropertyTable.AddConfiguration | src/main/java/io/dexi/config/DexiConfig.java:141-154 | the iterator loop leaves exactly the first-wins merge of the configuration into the old table; a null configuration changes nothing |
| ConfigStore.PropertyTable.MergeFile | src/main/java/io/dexi/config/DexiConfig.java:118-154 | fetch-then-merge ends in the table and outcome of `LoadAndMerge`; a load that throws leaves the table as it was |
| ConfigStore.PropertyTable.MergeUrl | src/main/java/io/dexi/config/DexiConfig.java:156-166 | the URL stage ends in the table and outcome of `UrlStage` |
| ConfigStore.PropertyTable.ReadEnvironment | src/main/java/io/dexi/config/DexiConfig.java:96-116 | the for loop leaves exactly `ApplyEnvironment` of the old table: every decodable entry is written, overwriting |
| ConfigStore.SchemeOf | src/main/java/io/dexi/config/DexiConfig.java:125-126 | there is no scheme exactly when the first ':', '/', '?' or '#' is not a ':'; the location fails with MalformedLocation exactly when that first delimiter is a ':' whose prefix is empty or is not a letter followed by letters, digits, '+', '-' or '.'; otherwise the scheme is that prefix |
| ConfigStore.GetConfigurationFile | src/main/java/io/dexi/config/DexiConfig.java:118-139 | a location fails exactly when its scheme is malformed or it is remote and cannot be fetched; a remote location reads the fetched document, and any other location the class-path resource, or null when it is missing |
| ConfigStore.MergeConfiguration | src/main/java/io/dexi/config/DexiConfig.java:141-154 | a null configuration changes nothing; otherwise each key keeps its old value or else takes the document's first value, so no present entry changes |
| ConfigStore.LoadAndMerge | src/main/java/io/dexi/config/DexiConfig.java:118-154 | the load-then-merge step fails exactly when getConfigurationFile throws, a failure leaves the table as it was, and no present entry ever changes |
| ConfigStore.DecodeEnvKey | src/main/java/io/dexi/config/DexiConfig.java:99-111 | a name is stored under some key exactly when it starts with DEXI_APP_ and not with the reserved name |
| ConfigStore.EnvValue | src/main/java/io/dexi/config/DexiConfig.java:157 | System.getenv(name): absent exactly when no entry has that name, and otherwise the value of the last entry with it |
| ConfigStore.UrlStage | src/main/java/io/dexi/config/DexiConfig.java:156-166 | without a configuration URL the stage does nothing; a failed fetch leaves the table as it was, and no present entry ever changes |
| ConfigStore.FirstDelimiter | src/main/java/io/dexi/config/DexiConfig.java:125-126 | the first ':', '/', '?' or '#' of the location, with no delimiter before it, or -1 when there is none |
| ConfigStore.RemoteIffHttpPrefix | src/main/java/io/dexi/config/DexiConfig.java:125-127 | a location is fetched over the network exactly when it starts with "http:" in any letter case |
| ConfigStore.HttpsIsLocal | src/main/java/io/dexi/config/DexiConfig.java:127-136 | an "https:" location is always a class-path lookup: the resource's document, or nothing when it is missing |
| ConfigStore.LookupAppend | src/main/java/io/dexi/config/DexiConfig.java:143-150 | the first value for a key in two documents read one after the other is the first document's value, else the second's |
| ConfigStore.LookupPresent | src/main/java/io/dexi/config/DexiConfig.java:143-145 | a document gives a key a value exactly when the key is among its keys |
| ConfigStore.MergeFirstWins | src/main/java/io/dexi/config/DexiConfig.java:141-154 | after a file merge every key keeps its old value when it had one, and otherwise takes the document's first value for it |
| ConfigStore.MergeFirstWinsShape | src/main/java/io/dexi/config/DexiConfig.java:147-151 | a file merge never changes a present key, and the merged key set is the old keys together with the file's keys |
| ConfigStore.MergeFirstWinsAppend | src/main/java/io/dexi/config/Config.java:138-150 | merging two files in turn is merging their concatenation, so the earlier file wins on a shared key |
| ConfigStore.MergeFirstWinsIdempotent | src/main/java/io/dexi/config/DexiConfig.java:141-154 | merging the same configuration twice equals merging it once |
| ConfigStore.DecodedSectionIsApp | src/main/java/io/dexi/config/DexiConfig.java:101-111 | every selected name decodes to "app." followed by the lower-cased rest after "DEXI_APP_": the underscore is always at index 3, the skip never fires, and the section is always "app" |
| ConfigStore.ConfigUrlValue | src/main/java/io/dexi/config/DexiConfig.java:157-162 | the URL is the environment variable when it is non-empty, else the system property when that is non-empty, else absent |
| ConfigStore.ApplyEnvironment | src/main/java/io/dexi/config/DexiConfig.java:100-114 | after the overwrite pass each decoded key holds the value of the last entry decoding to it; every other key is unchanged |
| ConfigStore.ApplyEnvironmentIdempotent | src/main/java/io/dexi/config/DexiConfig.java:112 | applying the same environment twice equals applying it once |
| ConfigStore.EnvironmentKeysAreNamespaced | src/main/java/io/dexi/config/DexiConfig.java:102-111 | every key the environment writes starts with "app." |
| ConfigStore.BareKeysUntouchedByEnvironment | src/main/java/io/dexi/config/DexiConfig.java:102-112 | a key without a '.' is never changed by the environment |
| ConfigStore.LoadAndMergeMerges | src/main/java/io/dexi/config/DexiConfig.java:118-154 | a load completes exactly when the fetch does; a completed load merged its document first-wins, and a failed one left the table unchanged |
| ConfigStore.LoadOutcomeIgnoresTable | src/main/java/io/dexi/config/DexiConfig.java:118-139 | whether a file load throws depends on the sources only, never on the table |
| ConfigStore.UrlOutcomeIgnoresTable | src/main/java/io/dexi/config/DexiConfig.java:156-166 | whether the URL stage throws depends on the environment, the system property and the sources only |
| ConfigStore.UrlStageMerges | src/main/java/io/dexi/config/DexiConfig.java:156-166 | a completed URL stage merged the URL document first-wins |
| DexiConfig.ExtensionOf | src/main/java/io/dexi/config/DexiConfig.java:169 | the extension has no '.'; it is the whole path when the path has no '.', and otherwise the path is its prefix, a '.', then the extension |
| DexiConfig.FormatFor | src/main/java/io/dexi/config/DexiConfig.java:172-187 | a reader is chosen exactly for yml, json, xml and ini, and it is always the YAML reader |
| DexiConfig.LocalStageMerges | src/main/java/io/dexi/config/DexiConfig.java:168-191 | a completed local stage merged the default file's document first-wins |
| DexiConfig.ResolvePrecedence | src/main/java/io/dexi/config/DexiConfig.java:193-199 | after a completed load each key holds the last environment value decoding to it, else its old value, else the local file's, else the URL file's |
| DexiConfig.UnsupportedExtensionLoadsNothing | src/main/java/io/dexi/config/DexiConfig.java:185-186 | an unsupported extension throws before anything is read and leaves the table unchanged |
| DexiConfig.FailedUrlSkipsEnvironment | src/main/java/io/dexi/config/DexiConfig.java:194-198 | a configuration URL that cannot be fetched ends the load with only the local file merged; no environment value is written |
| DexiConfig.ReadLocalStage | src/main/java/io/dexi/config/DexiConfig.java:168-191 | an unsupported extension fails with UnsupportedExtension before anything is read, and any failure leaves the table as it was |
| DexiConfig.Resolve | src/main/java/io/dexi/config/DexiConfig.java:193-199 | a load that throws holds no more than the local stage merged: no URL value and no environment override |
| DexiConfig.StageOutcomesIgnoreTable | src/main/java/io/dexi/config/DexiConfig.java:168-191 | whether a file stage throws depends on the sources only, never on the table |
| DexiConfig.ReloadedFilesAddNothing | src/main/java/io/dexi/config/DexiConfig.java:193-196 | on a second load both file stages add nothing to what the first load left |
| DexiConfig.ResolveIsStable | src/main/java/io/dexi/config/DexiConfig.java:193-199 | loading a second time without a reset gives the same table and outcome |
| DexiConfig.GettersIgnoreEnvironment | src/main/java/io/dexi/config/DexiConfig.java:209-219 | the environment never changes what getBaseUrl, getApiKey and getAccount return |
| DexiConfig.DecodesTo | src/main/java/io/dexi/config/DexiConfig.java:99-111 | a name is stored under a key exactly when it starts with "DEXI_APP_" and not with "DEXI_APP_CREDENTIALS", and that key is "app." and its lower-cased remainder |
| DexiConfig.DocumentedOverrideLandsUnderApp | src/main/java/io/dexi/config/DexiConfig.java:102-111 | DEXI_APP_dexi_baseUrl is stored under "app.dexi_baseurl" |
| DexiConfig.CaseCollidingNamesCollapse | src/main/java/io/dexi/config/DexiConfig.java:102-112 | any two selected names whose remainders differ only in letter case decode to the same key, and the later entry's value wins |
| DexiConfig.DexiConfig.constructor | src/main/java/io/dexi/config/DexiConfig.java:93-94 | the default file is user.home followed by "/.dexi/configuration.yml", and the table starts empty |
| DexiConfig.DexiConfig.SetLocalConfigFile | src/main/java/io/dexi/config/DexiConfig.java:205-207 | replaces the default file and leaves the table alone |
| DexiConfig.DexiConfig.ReadEnvironment | src/main/java/io/dexi/config/DexiConfig.java:96-116 | the overwrite pass, excluding names that start with DEXI_APP_CREDENTIALS |
| DexiConfig.DexiConfig.ReadLocalConfiguration | src/main/java/io/dexi/config/DexiConfig.java:168-191 | the extension check, then the first-wins load of the default file, as `ReadLocalStage` |
| DexiConfig.DexiConfig.GetConfigurationFromUrl | src/main/java/io/dexi/config/DexiConfig.java:156-166 | the URL stage with DEXI_APP_CREDENTIALS, as `UrlStage` |
| DexiConfig.DexiConfig.Load | src/main/java/io/dexi/config/DexiConfig.java:193-199 | the three stages in order, stopping at the first that throws, as `DexiConfig.Resolve` |
| DexiConfig.DexiConfig.GetProperties | src/main/java/io/dexi/config/DexiConfig.java:201-203 | the loader's own table object, not a copy, so a caller's changes reach the loader |
| DexiConfig.DexiConfig.ClearProperties | src/test/java/io/dexi/config/DexiConfigIT.java:17-20 | getProperties().clear() empties the loader's table and leaves the default file alone |
| DexiConfig.DexiConfig.GetBaseUrl | src/main/java/io/dexi/config/DexiConfig.java:209-211 | the bare key "baseUrl"'s value, else "https://api.dexi.io/" |
| DexiConfig.DexiConfig.GetApiKey | src/main/java/io/dexi/config/DexiConfig.java:213-215 | the bare key "apiKey"'s value, else null |
| DexiConfig.DexiConfig.GetAccount | src/main/java/io/dexi/config/DexiConfig.java:217-219 | the bare key "account"'s value, else null |
| Config.LoadAll | src/main/java/io/dexi/config/Config.java:138-150 | no files change nothing, and loading files in turn never changes a present entry |
| Config.Resolve | src/main/java/io/dexi/config/Config.java:152-158 | a load that throws holds no more than the local cascade merged: no URL value and no environment override |
| Config.LoadAllMergesInOrder | src/main/java/io/dexi/config/Config.java:138-150 | the cascade completes exactly when every file loads, and then it is one first-wins merge of the documents in reading order |
| Config.LoadAllStopsAtFirstFailure | src/main/java/io/dexi/config/Config.java:138-150 | the first file that throws ends the cascade with its error; the earlier files are merged and no later file is read |
| Config.ResolvedTable | src/main/java/io/dexi/config/Config.java:152-158 | a completed load leaves exactly the environment applied over the URL document, merged first-wins over the four local documents, merged first-wins over the old table |
| Config.LocalDocuments | src/main/java/io/dexi/config/Config.java:138-150 | the cascade's documents are those of the yml, json, xml and ini files, concatenated in that order |
| Config.ResolvePrecedence | src/main/java/io/dexi/config/Config.java:152-158 | after a completed load each key holds the environment's value, else its old value, else the value from yml, json, xml or ini in that order, else the URL file's |
| Config.Config.constructor | src/main/java/io/dexi/config/Config.java:62 | the table starts empty |
| Config.Config.GetProperties | src/main/java/io/dexi/config/Config.java:160-162 | the loader's own table object, not a copy |
| Config.Config.ReadEnvironment | src/main/java/io/dexi/config/Config.java:64-84 | the overwrite pass, excluding names that start with DEXI_APP_CONFIG_URL |
| Config.Config.ReadLocalConfiguration | src/main/java/io/dexi/config/Config.java:138-150 | the four load-and-merge steps, as `LoadAll` over yml, json, xml and ini |
| Config.Config.GetConfigurationFromUrl | src/main/java/io/dexi/config/Config.java:126-136 | the URL stage with DEXI_APP_CONFIG_URL, as `UrlStage` |
| Config.Config.Load | src/main/java/io/dexi/config/Config.java:152-158 | the cascade, the configuration URL, then the environment, stopping at the first stage that throws, as `Config.Resolve` |
| DexiClientFactory.SafeBaseUrl | src/main/java/io/dexi/client/DexiClientFactory.java:64-70 | the result ends with '/' and extends the input; it is the input when that already ends with '/', and otherwise one character longer |
| DexiClientFactory.SafeBaseUrlIdempotent | src/main/java/io/dexi/client/DexiClientFactory.java:64-70 | normalising twice equals normalising once |
| DexiClientFactory.SafeBaseUrlIsShortest | src/main/java/io/dexi/client/DexiClientFactory.java:64-70 | no extension of the input that ends with '/' is shorter than the normalised URL |
| DexiClientFactory.DefaultBaseUrlUnchanged | src/main/java/io/dexi/config/DexiConfig.java:85 | the default base URL passes through normalisation unchanged |
| DexiClientFactory.NewClientFactory | src/main/java/io/dexi/client/DexiClientFactory.java:57-62 | the stored base URL is the normalised argument and ends with '/'; the auth is stored as given |
| DexiClientFactory.NewClientFactoryFromConfig | src/main/java/io/dexi/client/DexiClientFactory.java:53-55 | the factory is built from getBaseUrl; with no "baseUrl" key, its base URL is exactly the default |
| DexiClientFactory.ConfigurationJson | src/main/java/io/dexi/client/DexiClientFactory.java:108-116 | null is returned before parsing exactly when the header is absent or only characters up to U+0020; otherwise the header is what gets parsed |
| DexiClientFactory.Create | src/main/java/io/dexi/client/DexiClientFactory.java:79-88 | demands a non-empty activation id; the client carries that id and the factory's base URL and auth |
| Query.OffsetAsLong | src/main/java/io/dexi/service/Query.java:27-36 | every result lies in [0, 2147483647]; the code throws exactly for a digit string whose value exceeds that; a digit string within range gives exactly its decimal value; a nonzero result is the value of an all-digit offset |
| Query.NumbersAreNotBlank | src/main/java/io/dexi/service/Query.java:28-31 | a digit string is never taken for blank |
| Query.DecimalRoundTrip | src/main/java/io/dexi/service/Query.java:31-33 | the decimal digits of n read back as n |
| Query.OffsetRoundTrip | src/main/java/io/dexi/service/Query.java:27-36 | the decimal form of every n up to 2147483647 parses as n |
| Query.LeadingZerosIgnored | src/main/java/io/dexi/service/Query.java:31-33 | leading zeros keep a digit string all digits and do not change its value |
| Query.PaddedOffsetRoundTrip | src/main/java/io/dexi/service/Query.java:27-36 | an offset written with any number of leading zeros parses as its value |
| Query.SignsAndSpacesGiveZero | src/main/java/io/dexi/service/Query.java:31-35 | " 5" and "-5" are non-blank non-numbers and give 0 |
| Query.NewCondition | src/main/java/io/dexi/service/Query.java:74-86 | a fresh condition has type EQ and every other field null |
| Query.NewStatement | src/main/java/io/dexi/service/Query.java:136-140 | a fresh statement has type AND and no conditions |
| Query.NewOrder | src/main/java/io/dexi/service/Query.java:159-162 | a fresh order has no field and no direction |
| Query.Query.constructor | src/main/java/io/dexi/service/Query.java:13-21 | empty sort order, fields and statements, a null offset and a limit of 30 |
| Query.Query.GetOffsetAsLong | src/main/java/io/dexi/service/Query.java:27-36 | offset parsing on the current offset, within [0, 2147483647] |
| Query.Query.SetFields | src/main/java/io/dexi/service/Query.java:42-44 | replaces the fields and nothing else |
| Query.Query.SetStatements | src/main/java/io/dexi/service/Query.java:50-52 | replaces the statements and nothing else |
| Query.Query.SetOffset | src/main/java/io/dexi/service/Query.java:54-56 | replaces the offset and nothing else |
| Query.Query.SetLimit | src/main/java/io/dexi/service/Query.java:62-64 | replaces the limit and nothing else |
| Query.Query.SetSortOrder | src/main/java/io/dexi/service/Query.java:70-72 | replaces the sort order and nothing else |
| OAuthEncryptionService.CheckKey | src/main/java/io/dexi/oauth/OAuthEncryptionService.java:36-46 | passes exactly for a byte length of 16, 24 or 32, and otherwise fails reporting that length |
| OAuthEncryptionService.NewEncryptionService | src/main/java/io/dexi/oauth/OAuthEncryptionService.java:21-34 | a blank key is refused first; construction succeeds exactly for a non-blank key of 16, 24 or 32 bytes, and keeps that key |
| OAuthEncryptionService.KeyLengthCountsBytes | src/main/java/io/dexi/oauth/OAuthEncryptionService.java:37-42 | a 16-character key passes exactly when it is all ASCII or its UTF-8 form takes 24 or 32 bytes |
| OAuthEncryptionService.EncryptOAuth2 | src/main/java/io/dexi/oauth/OAuthEncryptionService.java:57-65 | the payload is the sealed "access:refresh" text, and the other fields are copied from the tokens |
| OAuthEncryptionService.EncryptOAuth1 | src/main/java/io/dexi/oauth/OAuthEncryptionService.java:67-75 | the payload is the sealed "access:secret" text, and the other fields are copied from the tokens |
| OAuthEncryptionService.PayloadParts | src/main/java/io/dexi/oauth/OAuthEncryptionService.java:80-85 | two parts come out exactly for a non-blank payload that splits in two; the parts have no ':', the second is non-empty, and only ':' may follow them |
| OAuthEncryptionService.DecryptOAuth2 | src/main/java/io/dexi/oauth/OAuthEncryptionService.java:77-92 | the descriptive fields are copied; both tokens are set exactly when the payload splits into two parts, and otherwise both stay null |
| OAuthEncryptionService.DecryptOAuth1 | src/main/java/io/dexi/oauth/OAuthEncryptionService.java:94-109 | the descriptive fields, scope and expiry are copied; access token and secret are set exactly when the payload splits into two parts |
| OAuthEncryptionService.OAuth2RoundTrip | src/main/java/io/dexi/oauth/OAuthEncryptionService.java:57-92 | under a sound cipher, tokens without ':' (the second non-empty) come back unchanged from decrypt of encrypt |
| OAuthEncryptionService.OAuth1RoundTrip | src/main/java/io/dexi/oauth/OAuthEncryptionService.java:67-109 | the same round trip for access token and secret |
| OAuthEncryptionService.NullTokenComesBackAsText | src/main/java/io/dexi/oauth/OAuthEncryptionService.java:60 | a null access token is framed as "null" and decrypts as that text |
| OAuthEncryptionService.BlankPayloadLeavesTokensUnset | src/main/java/io/dexi/oauth/OAuthEncryptionService.java:80 | a blank or null payload is not decrypted and both tokens stay null |
| OAuthEncryptionService.SplitDropsTrailingEmpty | src/main/java/io/dexi/oauth/OAuthEncryptionService.java:83-85 | "a:" splits into one part, so it assigns nothing |
| OAuthEncryptionService.SplitKeepsLeadingEmpty | src/main/java/io/dexi/oauth/OAuthEncryptionService.java:83-88 | ":b" splits into "" and "b" |
| OAuthEncryptionService.SplitKeepsThirdPart | src/main/java/io/dexi/oauth/OAuthEncryptionService.java:83-85 | "a:b:c" splits into three parts, so it assigns nothing |
| DexiAuth.Unsigned | src/main/java/io/dexi/client/DexiAuth.java:63 | `b & 0xff` is below 256 and congruent to the byte modulo 256 |
| DexiAuth.ToHexString | src/main/java/io/dexi/client/DexiAuth.java:63 | Integer.toString(n, 16) is non-empty and all lower-case hex digits |
| DexiAuth.NinthBitSetsThreeDigits | src/main/java/io/dexi/client/DexiAuth.java:63 | adding 0x100 to an unsigned byte gives "1" followed by its high and low nibble digits |
| DexiAuth.ByteHex | src/main/java/io/dexi/client/DexiAuth.java:63 | each byte becomes its high nibble digit then its low nibble digit, zero-padded |
| DexiAuth.Hex | src/main/java/io/dexi/client/DexiAuth.java:59-67 | the encoding is exactly twice as long as the bytes |
| DexiAuth.ConvertByteToHex | src/main/java/io/dexi/client/DexiAuth.java:59-67 | the StringBuilder loop builds exactly `Hex` of the bytes |
| DexiAuth.HexIsLowerCase | src/main/java/io/dexi/client/DexiAuth.java:63 | every output character is 0-9 or a-f |
| DexiAuth.HexAppend | src/main/java/io/dexi/client/DexiAuth.java:62-64 | the encoding distributes over concatenation |
| DexiAuth.UnhexHex | src/main/java/io/dexi/client/DexiAuth.java:59-67 | decoding the hex string gives back the bytes |
| DexiAuth.HexInjective | src/main/java/io/dexi/client/DexiAuth.java:59-67 | distinct byte sequences give distinct hex strings |
| DexiAuth.CalculateAccess | src/main/java/io/dexi/client/DexiAuth.java:46-57 | the access token decodes to MD5(clientId + secret), is lower-case hex, and is 32 characters for a 16-byte digest |
| DexiAuth.NewDexiAuth | src/main/java/io/dexi/client/DexiAuth.java:24-32 | the account id and type are stored unchanged, and the access token decodes to MD5(accountId + secret) |
| DexiFileClient.CutAtSemicolon | src/main/java/io/dexi/client/DexiFileClient.java:23 | `[^;]*;` cuts at the first ';', and the piece before it holds no ';' |
| DexiFileClient.MatchTail | src/main/java/io/dexi/client/DexiFileClient.java:20-24 | the last group is a lower-case 8-4-4-4-12 uuid followed by at most one final line terminator |
| DexiFileClient.ParseFileField | src/main/java/io/dexi/client/DexiFileClient.java:23-24 | a matched value is "FILE:", a mime type and a size without ';' joined by ';', then a uuid and at most a line terminator |
| DexiFileClient.ParseComposed | src/main/java/io/dexi/client/DexiFileClient.java:23-24 | every value of that shape matches, with exactly those fields captured |
| DexiFileClient.UppercaseIdRejected | src/main/java/io/dexi/client/DexiFileClient.java:20 | an upper-case hex digit in the id makes the value non-matching |
| DexiFileClient.UuidHasNoSemicolon | src/main/java/io/dexi/client/DexiFileClient.java:20 | a uuid contains no ';' |
| DexiFileClient.TerminatorHasNoSemicolon | src/main/java/io/dexi/client/DexiFileClient.java:24 | a line terminator contains no ';' |
| DexiFileClient.TwoSeparators | src/main/java/io/dexi/client/DexiFileClient.java:23-24 | a matching value contains exactly two ';' |
| DexiFileClient.ComposedCount | src/main/java/io/dexi/client/DexiFileClient.java:23-24 | a value built from ';'-free pieces holds exactly the two separator ';' |
| DexiFileClient.IsFileFieldValue | src/main/java/io/dexi/client/DexiFileClient.java:35-37 | a recognised value starts with "FILE:" and is long enough to hold two ';' and a 36-character id |
| DexiFileClient.NewFileHandle | src/main/java/io/dexi/client/DexiFileClient.java:74-78 | the handle stores the file id, stream and size unchanged |
| DexiFileClient.GetFileFromFieldValue | src/main/java/io/dexi/client/DexiFileClient.java:43-59 | a non-matching value returns null and sends no request; a matching one requests group 4 once, and returns a handle exactly when the response succeeds |
| DexiFileClient.RequestsAreUuids | src/main/java/io/dexi/client/DexiFileClient.java:48-51 | every requested id is a well-formed uuid |
| DexiFileClient.GetFileFromFieldValueAsWritten | src/main/java/io/dexi/client/DexiFileClient.java:43-49 | as written, a non-matching value returns null and every matching value throws IllegalStateException |
| DexiFileClient.ExampleIsRecognised | src/main/java/io/dexi/client/DexiFileClient.java:22-24 | FILE:text/plain;12;123e4567-e89b-12d3-a456-426614174000 matches with that mime type, size and id |
| DexiFileClient.GroupWithoutMatchThrows | src/main/java/io/dexi/client/DexiFileClient.java:48-49 | on that value the code as written throws, while the intended extraction requests the trailing id |
| JavaText.IndexOf | src/main/java/io/dexi/config/DexiConfig.java:103 | indexOf is -1 exactly when the character is absent, and otherwise the first position holding it |
| JavaText.IndexOfFirst | src/main/java/io/dexi/config/DexiConfig.java:107-108 | a position holding the character with none before it is what indexOf returns |
| JavaText.LastIndexOf | src/main/java/io/dexi/config/DexiConfig.java:169 | lastIndexOf is -1 exactly when the character is absent, and otherwise the last position holding it |
| JavaText.LowerCaseShape | src/main/java/io/dexi/config/DexiConfig.java:102 | lower-casing keeps the length, leaves no ASCII capital, and changes only ASCII capitals, each to the letter 32 code points above |
| JavaText.Trim | src/main/java/io/dexi/service/Query.java:28 | trim is no longer than its input; a non-empty result starts and ends with a character above U+0020; an input whose first character is above U+0020 keeps it first |
| JavaText.IsBlank | src/main/java/io/dexi/oauth/OAuthEncryptionService.java:22 | a blank ASCII string also trims to "" |
| JavaText.Split | src/main/java/io/dexi/oauth/OAuthEncryptionService.java:83 | a string without the separator comes back whole; every part is separator-free, and no empty part is last unless the whole result is [""] |
| JavaText.TrimEmptyIff | src/main/java/io/dexi/service/Query.java:28 | trim gives "" exactly when every character is at most U+0020 |
| JavaText.SplitJoin | src/main/java/io/dexi/oauth/OAuthEncryptionService.java:60-85 | two ':'-free strings joined by ':', the second non-empty, split back into those two strings |
| JavaText.JoinSplitAll | src/main/java/io/dexi/oauth/OAuthEncryptionService.java:83 | joining the unlimited split with its separator rebuilds the string |
| JavaText.SplitTwo | src/main/java/io/dexi/oauth/OAuthEncryptionService.java:83-85 | a two-part split shows the string is part, separator, non-empty part, then only separators |
| JavaText.Utf8Length | src/main/java/io/dexi/oauth/OAuthEncryptionService.java:37 | the UTF-8 byte length lies between one and four bytes per character |
| JavaText.Utf8LengthAsciiIff | src/main/java/io/dexi/oauth/OAuthEncryptionService.java:37 | the byte length equals the character count exactly when every character is ASCII |

## Left out

- The outside world is passed in as parameters: the process environment (a sequence of name/value pairs in iteration order), system properties, `user.home`, and the contents of URLs and class-path resources (a `Sources` value). Results are stated relative to the given environment order, because `System.getenv()`'s order is unspecified.
- ConfigStore.EnvValue: `System.getenv(name)` reads a map with unique names. The model's environment is a sequence, and `EnvValue` takes the last entry with the name, the same convention as `ApplyEnvironment`.
- JavaText.ToLower: lower-cases ASCII capitals only, and `ConfigStore.DecodeEnvKey` inherits that. Java's `toLowerCase()` uses the default locale and full Unicode: "DEXI_APP_DEXI_ÄPI" becomes "app.dexi_äpi" in Java but keeps 'Ä' here, and under a Turkish locale 'I' becomes a dotless 'ı'. The model assumes a locale without special rules and ASCII names. `EqualsIgnoreCase` is ASCII-only for the same reason.
- ConfigStore.ApplyEnvironment: the last entry of the given sequence wins. The actual winner between case-colliding names depends on the hash map's iteration order.
- Apache Commons Configuration's readers are left out: a parsed file is a sequence of key/value pairs in key order. The reader's own parsing, and any exception it throws for a malformed local file, are not modelled. A URL with no serving entry stands for every fetch or parse failure.
- `ConfigStore.SchemeOf` models only the scheme scan of `java.net.URI`. Other `URISyntaxException` cases, and `MalformedURLException` from `toURL`, are not modelled.
- The `ReloadingFileBasedConfigurationBuilder` (reloading) and the `getFile` path conversion of a resource URL are not modelled.
- Retrofit, OkHttp, the header interceptor, `DexiAppClient`, `StreamingRequestBody`, the Guava caches and `getActivationConfig`, and `setupObjectMapper` are not modelled: they are network plumbing and library state. Jackson's `readValue` in `getConfiguration` is left out, so `ConfigurationJson` returns the header text that would be parsed.
- `DexiClientFactory.Create`: the client cache is not modelled, so repeated calls are not shown to return the same client object. A null id is not modelled, since strings are never null here.
- DexiClientFactory.Create: the `assert` on the activation id is taken as the method's precondition. Java checks it only when assertions are enabled (`-ea`), so without that flag `create("")` still builds a client.
- The no-argument `DexiClientFactory()` constructor is not modelled: it calls a two-argument `DexiAuth.from` that does not exist.
- AES, Base64 and MD5 are abstract functions. The round-trip lemmas assume only what `IsSound` says. Cipher exceptions (`Failed to process cipher`) are not modelled.
- `checkKey` uses the platform's default charset; the model takes it to be UTF-8.
- `DexiAuth.CalculateAccess`: the string concatenation of a null `accountId` or `secret` (which Java prints as "null") is not modelled, since strings are never null here.
- The output objects of `encrypt`, `decrypt` and `decryptOAuth1` are fresh and never shared, so each is modelled as a value built field by field rather than as an object mutated by its setters.
- `Query`'s setters store the given value. Java's sharing of the caller's list or set object (aliasing) is not modelled.
- The setters of `Condition`, `Statement` and `Order` are plain field replacement; they are not modelled beyond datatype update.
- `FileHandle.close`, the getters of `FileHandle` and `DexiAuth`, and the download itself are not modelled. The `IOException` that `execute()` can throw during the download is not modelled either. It propagates out of `getFileFromFieldValue` rather than giving null. `size` is an unbounded integer rather than a Java `long`.
- Query.OffsetAsLong: an offset above 2147483647 makes the code throw `NumberFormatException`. The model returns that error as a `Failure` value rather than excluding such offsets by a precondition.
- The `Schema`, `DynamicSchemaConfig`, payload and request classes are plain data holders and are not modelled.

## Findings

| source | as written | input that shows it | evidently intended | confidence | as-written member | corrected member |
|---|---|---|---|---|---|---|
| src/main/java/io/dexi/client/DexiFileClient.java:48-49 | `group(4)` is read from a fresh `Matcher` on which neither `matches()` nor `find()` was called, so it throws `IllegalStateException` for every value that passed `isFileFieldValue` | `FILE:text/plain;12;123e4567-e89b-12d3-a456-426614174000` | run `find()` on the matcher first, then request the file whose id is group 4 | not executed | DexiFileClient.GroupWithoutMatchThrows | DexiFileClient.GetFileFromFieldValue |
