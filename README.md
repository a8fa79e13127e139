# Avalon Tunnel core, modelled in Dafny

Avalon Tunnel runs a VLESS-over-WebSocket proxy (V2Ray) behind Caddy. Caddy
terminates TLS, serves a decoy site on `/`, and forwards one secret path to
the daemon. This project models the core of the system and proves
properties of the model:

- **the configuration synthesiser** (`ConfigService`): the random secret
  path, the daemon's configuration for a set of users, the Caddyfile, and
  the `vless://` share link. Each has a partner: the link has a parser that
  reads it back, the Caddyfile has layout lemmas that fix where the secret path and the proxy line appear.
- **the registry** (`Db.Database`): a class over the users, device log,
  settings and audit tables. Its mutators change these fields in place, the
  way the SQL statements change the tables.
- **the operator's configuration manager** (`ConfigManager`): `.env` loading
  with environment overrides, the users listed in a configuration, their
  links, rewriting the WebSocket path, and validation. Documents are JSON
  values with Python's `dict.get`, `in` and iteration semantics.
- **the user service** (`UserService.UserService`): creating users, the
  per-user link, and reloading the configuration.
- **the API token check** (`Auth`).

The support modules are:

- `Py`: Python values, `str()`, `int()`, `strip()` and truthiness.
- `Json`: documents as `json.load` returns them, with integer numbers only.
- `UrlEncoding`: UTF-8, `quote`, `quote_plus` and `urlencode`, each with a
  decoder that inverts it.

Randomness (`secrets.choice`, `uuid.uuid4`), the clock, the contents of
files, the process environment, swallowed storage failures and the outcome
of the restart script are all parameters.

## Model

| member | source | states |
|---|---|---|
| ConfigService.GenerateSecretPath | app/services/config_service.py:30-41 | the path has exactly the requested number of characters (none for a negative length), each an ASCII letter or digit |
| ConfigService.SecretPathReachable | app/services/config_service.py:40-41 | every alphanumeric string of a length is some draw of the random source, so the generator is onto its range |
| ConfigService.AlphabetIsAlnum | app/services/config_service.py:40 | the 62-character alphabet holds only ASCII letters and digits |
| ConfigService.Enabled | app/services/config_service.py:73 | the users the comprehension keeps are exactly the input users that are enabled, with a missing `enabled` counting as enabled |
| ConfigService.EnabledAppend | app/services/config_service.py:67-74 | filtering distributes over concatenation, so input order is kept |
| ConfigService.ClientOf | app/services/config_service.py:68-72 | a client entry exists iff the user has uuid and email; it has id = uuid, level defaulting to 0, and email; a missing uuid raises KeyError('uuid') before a missing email |
| ConfigService.Clients | app/services/config_service.py:67-74 | the clients succeed iff every enabled user has the keys; then there is one client per enabled user, in order, built from that user |
| ConfigService.ClientsOf | app/services/config_service.py:67-72 | the clients succeed iff every record has uuid and email; then one client per record, in order, built from it; otherwise the exception of the first record lacking a key |
| ConfigService.ClientsIgnoreDisabled | app/services/config_service.py:73 | inserting a disabled user anywhere leaves the clients, or the error, unchanged |
| ConfigService.GenerateV2RayConfig | app/services/config_service.py:43-123 | exactly one inbound: the given port, VLESS, WebSocket, path "/" + secret, decryption none, clients = the enabled users in order; one routing rule sends the 15 listed ranges to the outbound tagged "blocked", which is a blackhole |
| ConfigService.ConfigDependsOnlyOnEnabled | app/services/config_service.py:43-123 | the configuration depends only on the enabled users, the path and the port: no clock, no randomness |
| ConfigService.BlockedRangesCoverPrivate | app/services/config_service.py:100-116 | the blocked list has 15 entries and includes the RFC 1918 and RFC 5737 ranges |
| ConfigService.ClientsJson | app/services/config_service.py:67-74 | the JSON list has one object per client, in order |
| ConfigService.InboundsJson | app/services/config_service.py:62-84 | the JSON list has one object per inbound, in order |
| ConfigService.OutboundsJson | app/services/config_service.py:85-95 | the JSON list has one object per outbound, in order |
| ConfigService.RulesJson | app/services/config_service.py:96-120 | the JSON list has one object per routing rule, in order |
| ConfigService.StringsJson | app/services/config_service.py:100-116 | the address list as JSON strings, in order |
| ConfigService.CaddySiteRoutes | app/services/config_service.py:148-186 | the site answers for the domain; exactly one path, "/" + secret, is proxied, to 127.0.0.1:port, with the Upgrade and Connection headers passed on; `/` is a file server; the site headers remove Server, set the decoy nginx/1.18.0, nosniff and HSTS |
| ConfigService.CaddySiteShape | app/services/config_service.py:148-186 | the generated site has the fixed shape of two handle blocks and three header groups, serves the domain, and proxies "/" + secret to 127.0.0.1:port |
| ConfigService.SiteLayout | app/services/config_service.py:148-195 | a site of that shape renders to 46 lines, with the site line, `handle /`, `handle /<secret>`, `reverse_proxy <upstream>` and the closing brace at fixed places |
| ConfigService.HandlesLayout | app/services/config_service.py:153-170 | a decoy file-server block and a proxy block with one and two comments render to 20 lines, with the proxied `handle` line and its `reverse_proxy` line at fixed places |
| ConfigService.GroupsLayout | app/services/config_service.py:173-186 | header groups of two, four and one directives render to 12 lines |
| ConfigService.HeaderLines | app/services/config_service.py:173-186 | one rendered line per header |
| ConfigService.HeaderUpLines | app/services/config_service.py:165-168 | one rendered `header_up` line per forwarded header |
| ConfigService.CommentLines | app/services/config_service.py:152-184 | one rendered line per comment |
| ConfigService.ProxiedPaths | app/services/config_service.py:163-164 | never lists more proxied paths than there are handle blocks |
| ConfigService.VlessLinkRoundTrip | app/services/config_service.py:250-261 | parsing the link gives back the uuid, the authority domain:443, the query type=ws, security=tls, path=/secret, host and sni in that order, and the email as the remark (for a uuid without '@' and a domain without '?') |
| ConfigService.UserRoundTrip | app/services/config_service.py:260 | the user part of a link is everything before the first '@' |
| ConfigService.AddressRoundTrip | app/services/config_service.py:260 | the authority of a link is the domain followed by the fixed port 443 |
| ConfigService.QueryFragmentRoundTrip | app/services/config_service.py:259-260 | the query decodes to the parameters and the fragment to the email's UTF-8 bytes |
| UrlEncoding.Utf8Char | app/services/config_service.py:259-260 | one code point encodes to 1 to 4 bytes: ASCII as its own byte, anything else as bytes of at least 0x80 |
| UrlEncoding.Utf8 | app/services/config_service.py:259-260 | an ASCII string encodes byte for byte, and every byte below 0x80 comes from a character of the string |
| UrlEncoding.QuoteByte | app/services/config_service.py:259-260 | each byte is written as one character or as a three-character %XX escape |
| UrlEncoding.HexDigit | app/services/config_service.py:259-260 | the digits of an escape are unreserved characters |
| UrlEncoding.QuoteBytesAlphabet | app/services/config_service.py:259-260 | quoted output contains only unreserved characters, safe characters, '%', hex digits and (under plus) '+' |
| UrlEncoding.QuoteUnreserved | app/services/config_service.py:259-260 | a string of unreserved characters quotes to itself |
| UrlEncoding.HexRoundTrip | app/services/config_service.py:259-260 | each hexadecimal digit reads back as its value |
| UrlEncoding.UnquoteEscape | app/services/config_service.py:259-260 | a %XX escape decodes to its byte |
| UrlEncoding.UnquoteQuoteByte | app/services/config_service.py:259-260 | decoding a quoted byte gives back the byte |
| UrlEncoding.UnquoteQuoteBytes | app/services/config_service.py:259-260 | decoding quoted bytes gives back the bytes |
| UrlEncoding.QuoteRoundTrip | app/services/config_service.py:260 | decoding `quote(s)` gives back the UTF-8 bytes of s |
| UrlEncoding.IndexOf | app/services/config_service.py:260 | finds the first occurrence of a character, or reports that there is none |
| UrlEncoding.IndexOfAfter | app/services/config_service.py:260 | a delimiter absent from the prefix is found right after it |
| UrlEncoding.SplitOn | app/services/config_service.py:259 | splitting gives at least one piece |
| UrlEncoding.SplitJoin | app/services/config_service.py:259 | splitting a join of separator-free pieces gives the pieces back |
| UrlEncoding.Fields | app/services/config_service.py:259 | `urlencode` yields one key=value field per parameter, in order |
| UrlEncoding.QuotePlusHasNo | app/services/config_service.py:259 | a character that is not unreserved, '%' or '+' never appears in `quote_plus` output, so '&', '=', '#' and '?' are always escaped |
| UrlEncoding.ParseField | app/services/config_service.py:259 | a field decodes to its key and value |
| UrlEncoding.ParseFields | app/services/config_service.py:259 | the fields decode to the parameters, in order |
| UrlEncoding.ParseUrlEncode | app/services/config_service.py:259 | decoding `urlencode(params)` gives back the parameters |
| UrlEncoding.UrlEncodeDelimiters | app/services/config_service.py:259-260 | the encoded query contains no '#' or '?', so the link's delimiters are unambiguous |
| UrlEncoding.JoinAvoids | app/services/config_service.py:259 | joining pieces that avoid a character avoids it too |
| Db.Lookup | app/database/database.py:106-116 | finds a row whose column equals the key iff one exists (never for NULL); the row found is in the table |
| Db.LookupUnique | app/database/database.py:106-128 | in a valid table, looking up a row by its own uuid, email or secret path finds that row |
| Db.Insert | app/database/database.py:141-145 | inserting into a creation-ordered list keeps it ordered and adds exactly that row |
| Db.SortByCreation | app/database/database.py:141-145 | ORDER BY created_at: a permutation of the rows that is sorted by creation time |
| Db.Filter | app/database/database.py:139-145 | keeps exactly the rows with enabled = 1 when asked, all rows otherwise |
| Db.FilterSort | app/database/database.py:139-145 | filtering then sorting equals sorting then filtering, so the enabled listing is the full listing's enabled rows in the same order |
| Db.SortSorted | app/database/database.py:141-145 | sorting a list already in creation order changes nothing |
| Db.PrecedesAllFiltered | app/database/database.py:141 | a row created before the first of a sorted list precedes all of its enabled rows |
| Db.FilterInsert | app/database/database.py:139-145 | filtering commutes with the ordered insertion of one row |
| Db.FilterInsertAfterHead | app/database/database.py:139-145 | filtering commutes with inserting behind the first row |
| Db.Restrict | app/database/database.py:159-161 | the updates are exactly the given keys among email, secret_path, level, enabled, notes, with their values |
| Db.Apply | app/database/database.py:166-174 | applying updates never changes id, uuid or created_at |
| Db.IndexOfUuid | app/database/database.py:172 | finds the row with the uuid, or reports that there is none |
| Db.WithoutUuid | app/database/database.py:189-191 | DELETE removes exactly the rows with that uuid and keeps the others |
| Db.WithoutUuidPairwise | app/database/database.py:189-191 | deleting keeps the uniqueness constraints |
| Db.EnabledNeverClashes | app/database/database.py:202-208 | setting `enabled` cannot violate a uniqueness constraint |
| Db.ReplacePairwise | app/database/database.py:166-175 | replacing a row with one that clashes with no other row keeps the constraints |
| Db.DeviceIndex | app/database/database.py:229-248 | finds the device row for (user, agent, address), or reports that there is none |
| Db.Database.constructor | app/database/database.py:17-57 | a fresh schema: every table empty |
| Db.Database.LogAudit | app/database/database.py:338-350 | appends one audit entry, or nothing when the insert fails; the failure never reaches the caller and no other table changes |
| Db.Database.GetUserByUuid | app/database/database.py:106-116 | a row iff some row has that uuid, and then a row with that uuid |
| Db.Database.GetUserByEmail | app/database/database.py:118-128 | a row iff some row has that email, and then a row with that email |
| Db.Database.GetUserBySecretPath | app/database/database.py:210-222 | a row iff some row has that secret path, and then a row with that path |
| Db.Database.GetAllUsers | app/database/database.py:130-150 | exactly the rows with enabled = 1 (or all rows), each once, in creation order |
| Db.Database.CreateUser | app/database/database.py:70-104 | a row clashing on uuid, email or secret path gives ValueError and changes nothing; otherwise the row with the given or generated uuid is appended, audited and returned, and looking it up by uuid finds it |
| Db.Database.UpdateUser | app/database/database.py:152-183 | a `user_uuid` or `self` keyword raises TypeError with no change; only the allowed keys are applied; no allowed key or an unknown uuid gives False with no change and no audit entry; a clash gives IntegrityError with no change; otherwise exactly that row changes (never its uuid) and one audit entry is appended |
| Db.Database.SetEnabled | app/database/database.py:202-208 | sets `enabled` on the row with that uuid; True iff such a row existed, and only then an `update_user` audit entry; other tables and the id counters untouched |
| Db.Database.DisableUser | app/database/database.py:202-204 | True iff the uuid existed, and only then an `update_user` audit entry for enabled = 0; afterwards no enabled listing shows it; other tables untouched |
| Db.Database.EnableUser | app/database/database.py:206-208 | True iff the uuid existed, and only then an `update_user` audit entry for enabled = 1; afterwards the enabled listing shows it; other tables untouched |
| Db.Database.DeleteUser | app/database/database.py:185-200 | True iff a row with that uuid existed; exactly that row is removed, an audit entry is appended only then, and other tables are untouched |
| Db.Database.RecordDeviceAccess | app/database/database.py:224-258 | a new device gets a row; a known one has its count raised by exactly 1, its path overwritten and its last sighting set to now, with its first sighting kept; a storage failure gives False and changes nothing; nothing raises |
| Db.Database.GetSetting | app/database/database.py:296-306 | the stored value iff the key exists |
| Db.Database.SetSetting | app/database/database.py:308-325 | the value is replaced and reads back; an existing key keeps its original description |
| Db.Database.IsInitialized | app/database/database.py:59-62 | holds exactly when setting "initialized" is "1" |
| Db.Database.MarkAsInitialized | app/database/database.py:64-68 | the setting `initialized` becomes "1" with its original description (or an empty one) and the registry is initialized; an `update_setting` audit entry is appended; other settings, the users and device tables and the id counters are untouched |
| Py.Strip | scripts/config_manager.py:33 | `strip()`: the result is a contiguous part of the input that neither starts nor ends with whitespace, and only whitespace was removed |
| Py.StripUnpadded | scripts/config_manager.py:33 | a non-empty string with no whitespace at either end strips to itself |
| Py.LeadingSpace | scripts/config_manager.py:33 | the length of the leading whitespace run |
| Py.TrailingSpace | scripts/config_manager.py:33 | the length of the trailing whitespace run |
| Py.NatToDecimal | app/services/user_service.py:117 | `str(n)` of a natural number: non-empty digits with no leading zero |
| Py.DigitChar | app/services/user_service.py:117 | a digit character for each digit value |
| Py.DigitsValueOfDecimal | app/services/user_service.py:117 | reading the decimal digits of n gives n |
| Py.IntOfStr | app/services/user_service.py:117 | `int(str(n)) == n` for every integer |
| Json.Get | scripts/config_manager.py:63-70 | `d.get(key, default)` succeeds only on a dict, giving the value or the default |
| Json.ElementsForGet | scripts/config_manager.py:63-66 | iterating a list yields its items; any other value yields nothing or raises |
| Json.ScalarStr | scripts/config_manager.py:89 | formatting a scalar succeeds, a string as itself; lists and dicts have no rendering |
| ConfigManager.EnvEntry | scripts/config_manager.py:33-37 | a line contributes nothing iff its stripped form is empty, starts with '#', or has no '=' |
| ConfigManager.EnvEntrySplit | scripts/config_manager.py:36-37 | a kept line is split at its first '=', and key and value are stripped |
| ConfigManager.Entries | scripts/config_manager.py:32-37 | one entry per line, in file order |
| ConfigManager.EnvDefined | scripts/config_manager.py:32-37 | a key is defined iff some entry defines it |
| ConfigManager.EnvLastDefinitionWins | scripts/config_manager.py:37 | a key's value is the one from the last entry defining it |
| ConfigManager.EnvFileDefined | scripts/config_manager.py:30-37 | in terms of the file's lines: a variable is defined iff some line defines it |
| ConfigManager.EnvFileLastWins | scripts/config_manager.py:30-37 | in terms of the file's lines: a defined variable has the value of the last line defining it |
| ConfigManager.Env | scripts/config_manager.py:25-48 | the result always contains DOMAIN and SECRET_PATH |
| ConfigManager.EnvRequiredKeys | scripts/config_manager.py:40-46 | DOMAIN and SECRET_PATH come from the environment if set, else from the file, else default to your-domain.com and avalon-secret-path |
| ConfigManager.EnvOtherKeys | scripts/config_manager.py:40-42 | every other key comes from the file alone: the environment does not add, change or remove it |
| ConfigManager.OverridesOfKeys | scripts/config_manager.py:40-42 | the override loop sets DOMAIN and then SECRET_PATH from the environment when present |
| ConfigManager.ReadEnvLines | scripts/config_manager.py:32-37 | the parsing loop yields the file's definitions |
| ConfigManager.LoadEnv | scripts/config_manager.py:25-48 | `load_env` returns the file's definitions, overridden and defaulted as above |
| ConfigManager.ClientEntry | scripts/config_manager.py:67-72 | a client gives an entry iff it is a dict, tagged with the inbound's protocol; otherwise AttributeError |
| ConfigManager.ClientEntries | scripts/config_manager.py:66-72 | the entries succeed iff every client is a dict; then one entry per client, in order |
| ConfigManager.ReadClients | scripts/config_manager.py:66-72 | the inner loop of `get_users` yields the entries of one inbound's clients, or the first exception |
| ConfigManager.GetUsers | scripts/config_manager.py:58-74 | the nested loops yield the entries of the vless and vmess inbounds, in inbound-then-client order, or the first exception |
| ConfigManager.ClientsErrorPersists | scripts/config_manager.py:66-72 | once a client raises, the whole list raises the same |
| ConfigManager.InboundsErrorPersists | scripts/config_manager.py:63-72 | once an inbound raises, the whole listing raises the same |
| ConfigManager.EntriesHaveUserProtocol | scripts/config_manager.py:64-65 | every listed user comes from a vless or vmess inbound |
| ConfigManager.ClientsJsonEntries | scripts/config_manager.py:66-72 | a rendered client list reads back as its clients' id, email and level |
| ConfigManager.InboundJsonEntries | scripts/config_manager.py:63-72 | a rendered VLESS inbound lists its clients |
| ConfigManager.SingleInboundEntries | scripts/config_manager.py:63-72 | a one-inbound list contributes that inbound's entries |
| ConfigManager.ConfigJsonEntries | scripts/config_manager.py:58-74 | a rendered one-inbound configuration lists that inbound's clients |
| ConfigManager.GeneratedConfigUsers | scripts/config_manager.py:58-74 | the users read back from a generated configuration are its enabled users, in order, each with its uuid, email and level, under VLESS |
| ConfigManager.LinkOf | scripts/config_manager.py:76-91 | a link exists iff the id is a scalar and the email a string (otherwise TypeError); it is the vless link for that id, domain, path and email |
| ConfigManager.LinksWith | scripts/config_manager.py:102-115 | the entries succeed iff every user's link does; then one entry per user, in order, echoing email and uuid |
| ConfigManager.BuildLinks | scripts/config_manager.py:102-113 | the loop of `generate_all_links` yields one entry per listed user, in order, or the first exception |
| ConfigManager.GenerateAllLinks | scripts/config_manager.py:93-115 | `generate_all_links` returns the links of the listed users for the loaded domain and secret path, or the first exception |
| ConfigManager.LinksErrorPersists | scripts/config_manager.py:102-113 | once a link raises, the whole loop raises the same |
| ConfigManager.AllLinksRoundTrip | scripts/config_manager.py:93-115 | each entry echoes its user's uuid and email, and its link parses back to that id, the configured domain on port 443, "/" + SECRET_PATH and the email |
| ConfigManager.UpdatedInbound | scripts/config_manager.py:123-131 | an inbound with streamSettings gets wsSettings.path = "/" + secret and is flagged changed iff the old path differed; other keys are untouched; an inbound without the key is unchanged; non-dicts follow Python's `in` and indexing errors |
| ConfigManager.UpdatedInbounds | scripts/config_manager.py:122-131 | every inbound updated in order; `updated` iff some inbound changed; the first error raises |
| ConfigManager.UpdateInbounds | scripts/config_manager.py:122-131 | the in-place loop yields the updated inbounds and the flag |
| ConfigManager.UpdatedInboundsStep | scripts/config_manager.py:122-131 | one more loop iteration extends the updated prefix by one inbound |
| ConfigManager.UpdateV2RayConfig | scripts/config_manager.py:117-138 | the document is written only if some path changed, and then it is the updated document; otherwise nothing is written |
| ConfigManager.UpdateErrorPersists | scripts/config_manager.py:122-131 | once an inbound raises, the loop raises the same |
| ConfigManager.InboundUpdateIdempotent | scripts/config_manager.py:128-131 | updating an updated inbound again changes nothing |
| ConfigManager.UpdateIdempotent | scripts/config_manager.py:128-138 | a second update with the same secret writes nothing |
| ConfigManager.InboundJsonUpdate | scripts/config_manager.py:123-131 | a rendered inbound gets exactly its WebSocket path replaced |
| ConfigManager.SingleInboundUpdate | scripts/config_manager.py:122-131 | a one-inbound list updates as that inbound |
| ConfigManager.ConfigJsonUpdate | scripts/config_manager.py:117-131 | a rendered one-inbound configuration gets that path replaced and nothing else |
| ConfigManager.ToJsonInbounds | scripts/config_manager.py:117-131 | the rendered document holds the rendered inbounds under `inbounds`, and rendering other inbounds changes that entry alone |
| ConfigManager.UpdateGeneratedConfig | scripts/config_manager.py:117-138 | updating a generated configuration to a new secret gives the configuration generated for the new secret; it is written iff the secrets differ |
| ConfigManager.InboundWarning | scripts/config_manager.py:177-182 | at most one warning per inbound, a path mismatch naming the expected path and a found path that differs |
| ConfigManager.CheckPaths | scripts/config_manager.py:176-185 | the path loop yields the warnings in order and the exception that cut it short, keeping the earlier warnings |
| ConfigManager.CheckDocument | scripts/config_manager.py:166-185 | the `try` block as a loop: a load or listing error alone; otherwise the no-users error, an error for the exception that cut the path loop short, and the path warnings found before it |
| ConfigManager.PathWarningsStop | scripts/config_manager.py:176-185 | once an inbound raises, later inbounds add nothing |
| ConfigManager.ValidateConfig | scripts/config_manager.py:154-194 | the verdict and the errors and warnings of `validate_config` |
| ConfigManager.PathRaiseIgnoresExpected | scripts/config_manager.py:176-182 | whether the path loop raises does not depend on the expected path |
| ConfigManager.VerdictIgnoresEnv | scripts/config_manager.py:161-194 | a default domain or a path mismatch is only a warning: the verdict does not depend on the `.env` file or the environment |
| ConfigManager.VerdictMeaning | scripts/config_manager.py:166-194 | True exactly when the configuration loads, lists a user, and every VLESS path can be read |
| ConfigManager.SinglePathWarning | scripts/config_manager.py:176-182 | a one-inbound list warns as that inbound |
| ConfigManager.InboundJsonWarning | scripts/config_manager.py:177-182 | a rendered VLESS inbound warns iff its path is not the expected one |
| ConfigManager.ConfigJsonFindings | scripts/config_manager.py:166-185 | on a rendered one-inbound configuration: an error iff it has no users, a warning iff its path differs |
| ConfigManager.ValidateConfigJson | scripts/config_manager.py:154-194 | on a rendered one-inbound configuration: passes iff it has users; the domain warning only for the default domain; a path warning iff the inbound's path differs from "/" + SECRET_PATH |
| ConfigManager.ValidateGeneratedConfig | scripts/config_manager.py:154-194 | with the loaded variables, a generated configuration passes iff it has an enabled user, warning about the domain only when it is the default and about the path only when SECRET_PATH names another secret |
| UserService.PortSetting | app/services/user_service.py:117 | an absent or empty setting gives 10000; otherwise the integer `int()` reads, or ValueError |
| UserService.PortSettingRoundTrip | app/services/user_service.py:117 | a port stored as its decimal text reads back unchanged |
| UserService.Records | app/services/user_service.py:116 | the rows as dictionaries, one per row, in order |
| UserService.EnabledRecords | app/services/user_service.py:116 | rows with enabled = 1 all pass the generator's filter |
| UserService.RecordsHaveClientKeys | app/services/user_service.py:116-124 | every registry row carries the uuid and email a client needs |
| UserService.ConfigOfRows | app/services/user_service.py:116-124 | the configuration for enabled rows has one client per row, in order, with the row's uuid, level and email |
| UserService.UserService.CreateUser | app/services/user_service.py:29-53 | a freshly drawn 32-character alphanumeric secret path is passed to the registry with a generated uuid and level 0; the registry's row or its ValueError is returned, and the row is found by its uuid |
| UserService.UserService.GetUserVlessLink | app/services/user_service.py:162-182 | None exactly when the uuid is unknown or its secret path is empty; TypeError exactly when the email is not a string; otherwise a link |
| UserService.UserService.VlessLinkOfUser | app/services/user_service.py:173-182 | the link of a stored user parses back to that same row's uuid, "/" + its secret path, and its email |
| UserService.UserService.StoredUserLink | app/services/user_service.py:173-182 | the link returned for a stored user's uuid is the share link made from that same row's uuid, secret path and email |
| UserService.UserService.SyncCallOf | app/services/user_service.py:116-124 | the files are written iff the port setting reads, and then for the domain, the enabled users in creation order, the secret path and that port |
| UserService.UserService.SyncedClients | app/services/user_service.py:116-124 | the written configuration admits exactly the enabled registry users, in creation order, by their own uuid, level and email, on "/" + secret at the configured port |
| UserService.UserService.ReloadConfigs | app/services/user_service.py:104-160 | never raises; success iff the port setting reads and the restart exits 0; user_count is then the number of enabled users; a restart failure or timeout keeps that count; a bad port gives user_count 0 |
| UserService.UserService.ReloadConfigsAsWritten | app/services/user_service.py:114-160 | as written: never succeeds and always reports user_count 0, with ValueError for a bad port and TypeError otherwise |
| UserService.UserService.ReloadAsWrittenNeverSucceeds | app/services/user_service.py:120-124 | with a readable port and a restart that exits 0, the corrected reload succeeds with the enabled-user count while the as-written one fails with TypeError and 0 |
| Auth.ApiSecret | app/api/auth.py:11 | the secret is API_SECRET from the environment, or empty |
| Auth.VerifyApiToken | app/api/auth.py:17-43 | True exactly when the secret is non-empty and equals the token; an empty secret gives 500 whatever the token; another token gives 401 with `WWW-Authenticate: Bearer` |
| Auth.EmptyTokenRefused | app/api/auth.py:30-36 | the empty token is never accepted |
| Auth.UnconfiguredRefusesAll | app/api/auth.py:30-34 | with no secret configured, every token gets the same 500 answer |
| Auth.OnlyTheSecretAccepted | app/api/auth.py:36-43 | at most one token, the secret itself, is accepted |

## Left out

- File I/O and printing are left out. This covers `write_v2ray_config`, `write_caddyfile`, `sync_all_configs`, `load_v2ray_config`, `save_links_to_file`, `display_info`, `sync_config` and `main`, plus every `print`. Files are modelled as their contents: the `.env` lines and the result of loading `config.json`. A `sync_all_configs` call is modelled by its arguments (`UserService.SyncCall`).
- JSON byte formatting (`json.dump` with indent) is not modelled. Documents are values.
- SQLite mechanics are not modelled: connections, `schema.sql`, directory creation, the users table's `updated_at` column and any cascade on delete. The schema's defaults for `enabled` and the initial `access_count` are constructor parameters, because the schema is not part of this model.
- Row ids come from a counter. `ORDER BY created_at` ties are kept in insertion order, which SQLite does not promise.
- `get_user_devices`, `get_all_device_access`, `get_all_settings` and `get_audit_logs` are left out. They are read-only listings whose ordering comes from SQL not shown here.
- The user service's `get_all_users`, `get_user`, `update_user`, `delete_user` and `get_user_devices` are left out. Each passes its arguments straight to the registry operation modelled in `Db.Database`.
- The restart script runs as a subprocess, so it is an outcome parameter. `ReloadMessage` keeps which message was formatted, not its text.
- Py.ParseInt: does not accept `int()`'s underscore digit separators or non-ASCII digits.
- JSON numbers with a fraction or an exponent (`1.5`, `1e3`) are left out: `Json` has integers only, so a float `id` or `level`, which `get_users` would pass through, is not represented.
- Json.ScalarStr: gives no rendering for a list or dict. Python would format one as a literal whose key order a map does not keep.
- ConfigManager.LinkOf: a list or dict id is a TypeError here. Python would format it into the link, for the reason given for Json.ScalarStr.
- ConfigManager.ValidateConfig: takes one outcome of loading the configuration. The source loads the file twice (`load_v2ray_config`, then again inside `get_users`); the model assumes both loads see the same file.
- The HTTPBearer 403 response for a missing Authorization header is left out. It is framework behaviour, and the check is not attached to any route.
- Diagnostics (bash probes), the FastAPI routes and models, and the start-up banner in `app/main.py` are not part of this model.

## Findings

| source | as written | input that shows it | evidently intended | confidence | as-written member | corrected member |
|---|---|---|---|---|---|---|
| app/services/user_service.py:120-124 | `sync_all_configs` is called without its required `secret_path` argument (app/services/config_service.py:207-208). It raises TypeError, which the generic handler turns into success False with user_count 0 before the restart script runs. | any registry with a readable `v2ray_port` setting, and a restart script that would exit 0 | regenerate the files with a secret path, restart, and report success with the number of enabled users when the script exits 0 | not executed | UserService.UserService.ReloadConfigsAsWritten, UserService.UserService.ReloadAsWrittenNeverSucceeds | UserService.UserService.ReloadConfigs |
