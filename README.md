# GrivyzomCore, modelled in Dafny

GrivyzomCore is a Velocity proxy plugin. It keeps one MySQL connection,
caches a record per online player, and talks to the backend Minecraft
servers through plugin messages. This project models its five working
parts and proves what they promise:

- **The plugin-message codec and dispatcher** (`PluginMessageManager`),
  in `java_base.dfy`, `modified_utf8.dfy`, `float64.dfy`, `uuids.dfy`,
  `data_streams.dfy`, `plugin_message_manager.dfy` and `plugin_messaging.dfy`.
  - Messages are written field by field with `DataOutputStream` and read
    back with `DataInputStream`. Strings use Java's modified UTF-8 with a
    16-bit length prefix. Integers are big-endian two's complement, a
    `double` is its 64-bit pattern, and a `boolean` is one byte.
  - Inbound messages are routed by channel and then by message type.
  - The replies and broadcasts are sends appended to an outbox (`sent`).
- **The player cache** (`PlayerDataManager`), in `player_store.dfy` and
  `player_data_manager.dfy`.
  - The cache is a map from UUID to player object.
  - The table `grivyzom_players` is a second map, from UUID to row.
  - Every SQL statement takes the outcome of running it (ran, or threw) as
    a parameter.
- **The player record** (`GrivyzomPlayer`), in `grivyzom_player.dfy`.
  - It has guarded withdrawals, wrapping `int`/`long` accumulation and
    playtime formatting.
  - Elapsed-time texts take the current time as a parameter.
  - Equality is by UUID.
- **The connection supervisor** (`DatabaseManager`), in `database_manager.dfy`.
  - The JDBC connection is a record with fields `open`, `valid` and
    `autoCommit`, plus the log of calls made on it.
  - The manager keeps the `isConnected` flag and the monitor.
  - It guards every statement and brackets transactions.
  - Turning auto-commit back on commits the open transaction, as JDBC
    specifies for `setAutoCommit`. So a unit of work that throws an
    unchecked exception is not rolled back, and what it had already run is
    committed when `executeTransaction` restores auto-commit.
  - `setParameters` dispatches on each argument's runtime type.
- **The database configuration** (`DatabaseConfigManager`), in
  `database_config_manager.dfy`.
  - The parsed `database.yml` is a map of sections. The getters read it,
    with their defaults and their casts.
  - The validator collects every problem before it decides.
  - The JDBC URL builder and `createDatabaseConfig` are modelled.

Java's `String` is a sequence of UTF-16 code units (`JString`). `int` and
`long` arithmetic wraps explicitly (`Wrap32`, `Wrap64`). Java's `/` and `%`
truncate toward zero (`JDiv`, `JRem`). A `double` is an IEEE 754 binary64
bit pattern. An exception that escapes is an `Err` or a named outcome.

`DatabaseManager.java` declares two constructors and two `initialize`
methods. The second pair (lines 127-168) uses a `configManager` field that
the class does not declare, so the file as shown does not compile. The
model follows the pair `Main.java` calls, which takes a `DatabaseConfig`
(lines 23-64). `reconnect` reads its credentials through the same missing
field (line 227), so the model reconnects with the `DatabaseConfig` the
manager was built with.

## Model

| member | source | states |
|---|---|---|
| JavaBase.Wrap32 | src/main/java/gc/grivyzom/grivyzomCore/models/GrivyzomPlayer.java:89-91 | an `int` result is congruent to the exact value modulo 2^32 and equals it whenever it fits |
| JavaBase.Wrap64 | src/main/java/gc/grivyzom/grivyzomCore/models/GrivyzomPlayer.java:107-109 | a `long` result is congruent to the exact value modulo 2^64 and equals it whenever it fits |
| JavaBase.JRem | src/main/java/gc/grivyzom/grivyzomCore/models/GrivyzomPlayer.java:115-118 | Java's `%` on a positive divisor: quotient times divisor plus remainder is the dividend, and the remainder has the dividend's sign |
| JavaBase.DecRoundTrip | src/main/java/gc/grivyzom/grivyzomCore/models/GrivyzomPlayer.java:121-125 | every number printed in decimal (`%d`, string concatenation) reads back as that number |
| JavaBase.EqualsIgnoreCaseIsEquivalence | src/main/java/gc/grivyzom/grivyzomCore/managers/PlayerDataManager.java:283-287 | whatever the JDK's case tables, `equalsIgnoreCase` is reflexive, symmetric and transitive, so a lookup by name is well defined |
| JavaBase.EqualsIgnoreCaseMeaning | src/main/java/gc/grivyzom/grivyzomCore/managers/PlayerDataManager.java:284 | two strings are equal ignoring case exactly when they are equal after every unit is mapped to lower case of its upper case |
| JavaBase.CharEqualsIgnoreCaseMeaning | src/main/java/gc/grivyzom/grivyzomCore/managers/PlayerDataManager.java:284 | whatever the case tables, the three-step unit comparison of `regionMatches` (equal, equal upper-cased, equal lower-cased after upper-casing) is equality of the last form |
| ModifiedUtf8.EncodeUnit | src/main/java/gc/grivyzom/grivyzomCore/messaging/PluginMessageManager.java:262 | `writeUTF` takes one byte for U+0001..U+007F, two for U+0000 and U+0080..U+07FF, three otherwise |
| ModifiedUtf8.DecodeEncode | src/main/java/gc/grivyzom/grivyzomCore/messaging/PluginMessageManager.java:98 | `readUTF` decodes exactly the string `writeUTF` encoded, surrogates included |
| ModifiedUtf8.EncodeHasNoZeroByte | src/main/java/gc/grivyzom/grivyzomCore/messaging/PluginMessageManager.java:262 | an encoded string never holds a zero byte |
| Float64.ToLongBits | src/main/java/gc/grivyzom/grivyzomCore/messaging/PluginMessageManager.java:266 | `writeDouble` writes the canonical NaN for every NaN and the raw bits of every other value |
| Float64.Negate | src/main/java/gc/grivyzom/grivyzomCore/models/GrivyzomPlayer.java:80 | negation flips the sign and keeps the magnitude |
| Float64.Add | src/main/java/gc/grivyzom/grivyzomCore/models/GrivyzomPlayer.java:71-73 | IEEE 754 addition: NaN in gives NaN out, infinities of opposite signs give NaN, an infinity absorbs a finite value |
| Float64.FromUnitsUnits | src/main/java/gc/grivyzom/grivyzomCore/models/GrivyzomPlayer.java:72 | rounding the exact value of a positive finite double gives that double back |
| Float64.GeIsTotalOnNumbers | src/main/java/gc/grivyzom/grivyzomCore/models/GrivyzomPlayer.java:171-173 | `>=` is false whenever a NaN is involved, and is a total preorder on all other doubles |
| Float64.Narrow | src/main/java/gc/grivyzom/grivyzomCore/database/DatabaseConfigManager.java:199-221 | narrowing a double to an integer type lands inside that type's range |
| Float64.TruncateRoundsTowardZero | src/main/java/gc/grivyzom/grivyzomCore/database/DatabaseConfigManager.java:199-221 | the whole part of a double has its sign and the largest magnitude not above its own |
| Float64.NarrowWholeNumber | src/main/java/gc/grivyzom/grivyzomCore/database/DatabaseConfigManager.java:199-221 | a double holding a whole number within range narrows to exactly that number |
| Uuids.ToString | src/main/java/gc/grivyzom/grivyzomCore/messaging/PluginMessageManager.java:263 | `UUID.toString` is 36 characters long |
| Uuids.FromStringToString | src/main/java/gc/grivyzom/grivyzomCore/messaging/PluginMessageManager.java:129-130 | `UUID.fromString` of a UUID's string form gives that UUID back |
| Uuids.ToStringInjective | src/main/java/gc/grivyzom/grivyzomCore/messaging/PluginMessageManager.java:263 | two UUIDs with the same string form are equal |
| DataStreams.FromBigEndianRoundTrip | src/main/java/gc/grivyzom/grivyzomCore/messaging/PluginMessageManager.java:267 | a number written big-endian in n bytes reads back as itself |
| DataStreams.Utf | src/main/java/gc/grivyzom/grivyzomCore/messaging/PluginMessageManager.java:262 | `writeUTF` throws `UTFDataFormatException` exactly when the encoded string is longer than 65535 bytes |
| DataStreams.ReadFieldsKinds | src/main/java/gc/grivyzom/grivyzomCore/messaging/PluginMessageManager.java:98 | a successful run of reads gives one value of each requested kind, in order |
| DataStreams.ReadEncodedFields | src/main/java/gc/grivyzom/grivyzomCore/messaging/PluginMessageManager.java:95-98 | fields written with `DataOutputStream` read back in order with the same values (a NaN as the canonical NaN), consuming exactly the bytes written |
| DataStreams.ReadFieldsTruncated | src/main/java/gc/grivyzom/grivyzomCore/messaging/PluginMessageManager.java:115-118 | reading any strict prefix of written fields fails with an EOF error |
| DataStreams.EncodeFieldsConcat | src/main/java/gc/grivyzom/grivyzomCore/messaging/PluginMessageManager.java:259-276 | writing two runs of fields succeeds exactly when both do, and gives their bytes one after the other |
| DataStreams.DataOutput.Write | src/main/java/gc/grivyzom/grivyzomCore/messaging/PluginMessageManager.java:262-276 | one write appends the field's bytes, or throws and leaves the stream as it was |
| DataStreams.DataInput.Read | src/main/java/gc/grivyzom/grivyzomCore/messaging/PluginMessageManager.java:129 | one read consumes the field's bytes and returns its value, or fails without a value |
| PlayerModel.PlaytimeClockSplits | src/main/java/gc/grivyzom/grivyzomCore/models/GrivyzomPlayer.java:114-118 | hours, minutes and seconds recombine to the total seconds; for a non-negative playtime minutes and seconds are below 60 |
| PlayerModel.ReadFormatPlaytime | src/main/java/gc/grivyzom/grivyzomCore/models/GrivyzomPlayer.java:114-127 | for a non-negative playtime, the formatted text ("h m s", "m s" or "s") reads back as the total seconds |
| PlayerModel.NegativePlaytimeShowsSeconds | src/main/java/gc/grivyzom/grivyzomCore/models/GrivyzomPlayer.java:114-127 | a negative playtime prints only its seconds modulo 60, which read back as the total seconds exactly when the playtime is above minus one minute |
| PlayerModel.NegativePlaytimeExample | src/main/java/gc/grivyzom/grivyzomCore/models/GrivyzomPlayer.java:114-127 | a playtime of -3,700,000 ms prints as "-40s", which reads back as -40 seconds |
| PlayerModel.ElapsedBuckets | src/main/java/gc/grivyzom/grivyzomCore/models/GrivyzomPlayer.java:152-164 | for a non-negative elapsed time, the count is the whole number of units elapsed; the unit is days from one day up, hours from one hour up, minutes below |
| PlayerModel.ElapsedNegative | src/main/java/gc/grivyzom/grivyzomCore/models/GrivyzomPlayer.java:152-164 | a last join in the future is counted in minutes, with a count that is zero within a minute and negative otherwise ("Hace -N minutos") |
| PlayerModel.ConnectedExactlyWhenOnline | src/main/java/gc/grivyzom/grivyzomCore/models/GrivyzomPlayer.java:147-166 | the last-join text is "Conectado" exactly when the player is online, whatever the clock says |
| PlayerModel.FirstJoinMatchesLastJoin | src/main/java/gc/grivyzom/grivyzomCore/models/GrivyzomPlayer.java:132-142 | from one hour up the first-join text is the same count and unit as the last-join text, without "Hace " |
| PlayerModel.FirstJoinUnderAnHour | src/main/java/gc/grivyzom/grivyzomCore/models/GrivyzomPlayer.java:139-140 | under an hour the first-join text is "0 horas" |
| PlayerModel.EqualsMatchesStoredKey | src/main/java/gc/grivyzom/grivyzomCore/models/GrivyzomPlayer.java:295-306 | two players are equal exactly when their UUID texts, the key of their rows, are equal, and equal players hash alike |
| PlayerModel.GrivyzomPlayer.constructor | src/main/java/gc/grivyzom/grivyzomCore/models/GrivyzomPlayer.java:28-45 | the record holds exactly the given values |
| PlayerModel.GrivyzomPlayer.AddCoins | src/main/java/gc/grivyzom/grivyzomCore/models/GrivyzomPlayer.java:71-73 | coins become the IEEE sum; nothing else changes |
| PlayerModel.GrivyzomPlayer.RemoveCoins | src/main/java/gc/grivyzom/grivyzomCore/models/GrivyzomPlayer.java:78-84 | succeeds exactly when `hasEnoughCoins` holds; then coins become the IEEE difference, otherwise nothing changes |
| PlayerModel.GrivyzomPlayer.AddGems | src/main/java/gc/grivyzom/grivyzomCore/models/GrivyzomPlayer.java:89-91 | gems grow by exactly the amount (wrapping as an `int`); nothing else changes |
| PlayerModel.GrivyzomPlayer.RemoveGems | src/main/java/gc/grivyzom/grivyzomCore/models/GrivyzomPlayer.java:96-102 | succeeds exactly when `hasEnoughGems` holds; then gems drop by exactly the amount and stay non-negative for a non-negative amount, otherwise nothing changes |
| PlayerModel.GrivyzomPlayer.AddPlaytime | src/main/java/gc/grivyzom/grivyzomCore/models/GrivyzomPlayer.java:107-109 | playtime grows by exactly the argument (wrapping as a `long`); nothing else changes |
| PlayerModel.GrivyzomPlayer.UpdateLastJoin | src/main/java/gc/grivyzom/grivyzomCore/models/GrivyzomPlayer.java:185-187 | the last join becomes the current time; nothing else changes |
| PlayerModel.GrivyzomPlayer.SetUsername | src/main/java/gc/grivyzom/grivyzomCore/models/GrivyzomPlayer.java:198-200 | only the user name changes |
| PlayerModel.GrivyzomPlayer.SetDisplayName | src/main/java/gc/grivyzom/grivyzomCore/models/GrivyzomPlayer.java:206-208 | only the display name changes |
| PlayerModel.GrivyzomPlayer.SetLastJoin | src/main/java/gc/grivyzom/grivyzomCore/models/GrivyzomPlayer.java:218-220 | only the last join changes |
| PlayerModel.GrivyzomPlayer.SetLastServer | src/main/java/gc/grivyzom/grivyzomCore/models/GrivyzomPlayer.java:226-228 | only the last server changes |
| PlayerModel.GrivyzomPlayer.SetTotalPlaytime | src/main/java/gc/grivyzom/grivyzomCore/models/GrivyzomPlayer.java:234-236 | only the playtime changes |
| PlayerModel.GrivyzomPlayer.SetCoins | src/main/java/gc/grivyzom/grivyzomCore/models/GrivyzomPlayer.java:242-244 | only the coins change |
| PlayerModel.GrivyzomPlayer.SetGems | src/main/java/gc/grivyzom/grivyzomCore/models/GrivyzomPlayer.java:250-252 | only the gems change |
| PlayerModel.GrivyzomPlayer.SetRankId | src/main/java/gc/grivyzom/grivyzomCore/models/GrivyzomPlayer.java:258-260 | only the rank changes |
| PlayerModel.GrivyzomPlayer.SetPermissions | src/main/java/gc/grivyzom/grivyzomCore/models/GrivyzomPlayer.java:266-268 | only the permissions change |
| PlayerModel.GrivyzomPlayer.SetData | src/main/java/gc/grivyzom/grivyzomCore/models/GrivyzomPlayer.java:274-276 | only the data field changes |
| PlayerModel.GrivyzomPlayer.SetOnline | src/main/java/gc/grivyzom/grivyzomCore/models/GrivyzomPlayer.java:282-284 | only the online flag changes |
| PlayerStore.InsertPlayer | src/main/java/gc/grivyzom/grivyzomCore/managers/PlayerDataManager.java:37-45 | an unknown UUID gets a row with the six written columns and the table's defaults elsewhere; a known one gets its name, display name, last join and online flag replaced; no other row changes and keys stay primary keys |
| PlayerStore.NewRowMatchesRecord | src/main/java/gc/grivyzom/grivyzomCore/managers/PlayerDataManager.java:37-45 | the inserted row equals the new-player record exactly when the table's defaults for the unwritten columns are the record's values |
| PlayerStore.SetOnlineStatus | src/main/java/gc/grivyzom/grivyzomCore/managers/PlayerDataManager.java:199-202 | only the player's row changes, in its online flag and last join |
| PlayerStore.SetLastServer | src/main/java/gc/grivyzom/grivyzomCore/managers/PlayerDataManager.java:207-209 | only the player's row changes, in its last server |
| PlayerStore.SaveRecord | src/main/java/gc/grivyzom/grivyzomCore/managers/PlayerDataManager.java:214-224 | only the player's row changes, in coins, gems, rank, permissions, data and playtime |
| PlayerStore.SetCoins | src/main/java/gc/grivyzom/grivyzomCore/managers/PlayerDataManager.java:313-316 | only the player's row changes, in its coins |
| PlayerStore.SetGems | src/main/java/gc/grivyzom/grivyzomCore/managers/PlayerDataManager.java:339-342 | only the player's row changes, in its gems |
| PlayerStore.SetRank | src/main/java/gc/grivyzom/grivyzomCore/messaging/PluginMessageManager.java:200-203 | only the player's row changes, in its rank |
| Managers.LoadedRecordMatchesStore | src/main/java/gc/grivyzom/grivyzomCore/managers/PlayerDataManager.java:152-194 | a load succeeds exactly when the SELECT runs and finds the row or the INSERT runs; a returning player is loaded as stored; a new player gets the documented defaults, while the new row holds the table's defaults and equals the record exactly when those agree |
| Managers.DisconnectOutcome | src/main/java/gc/grivyzom/grivyzomCore/managers/PlayerDataManager.java:99-120 | the entry is evicted exactly when both the save and the status update run; only that player's row changes |
| Managers.BalancesSurviveRelogin | src/main/java/gc/grivyzom/grivyzomCore/managers/PlayerDataManager.java:102-111 | after a clean disconnect, logging in again loads the saved balances, rank, data and playtime, offline at the disconnect time |
| Managers.SaveAllStep | src/main/java/gc/grivyzom/grivyzomCore/managers/PlayerDataManager.java:234-237 | saving one more record extends the set of saved records, whatever the order |
| Managers.SaveAllWellKeyed | src/main/java/gc/grivyzom/grivyzomCore/managers/PlayerDataManager.java:234-244 | saving all records keeps every row under its own UUID |
| Managers.GemSumRemove | src/main/java/gc/grivyzom/grivyzomCore/managers/PlayerDataManager.java:389 | the gem total does not depend on the order the records are summed in |
| Managers.TopRowsAreTop | src/main/java/gc/grivyzom/grivyzomCore/managers/PlayerDataManager.java:362-380 | the top list has `min(limit, rows)` entries (none on error or negative limit), in non-increasing coin order, each at least every row left out |
| Managers.PlayerDataManager.LoadOrCreatePlayer | src/main/java/gc/grivyzom/grivyzomCore/managers/PlayerDataManager.java:152-194 | returns a new record equal to what `LoadOrCreate` loads and leaves the table as it says |
| Managers.PlayerDataManager.OnPlayerLogin | src/main/java/gc/grivyzom/grivyzomCore/managers/PlayerDataManager.java:69-90 | a successful load puts the record under its UUID, overwriting a previous entry, then marks the row online; a failed load changes nothing |
| Managers.PlayerDataManager.SavePlayerData | src/main/java/gc/grivyzom/grivyzomCore/managers/PlayerDataManager.java:214-224 | the row is saved exactly when the update runs |
| Managers.PlayerDataManager.OnPlayerDisconnect | src/main/java/gc/grivyzom/grivyzomCore/managers/PlayerDataManager.java:96-122 | save (if cached), then status, then evict; a failing statement stops there and the entry stays cached |
| Managers.PlayerDataManager.OnServerConnect | src/main/java/gc/grivyzom/grivyzomCore/managers/PlayerDataManager.java:128-147 | the row's last server is written first; the cached record changes only if that ran and the player is cached |
| Managers.PlayerDataManager.SaveAllOnlinePlayers | src/main/java/gc/grivyzom/grivyzomCore/managers/PlayerDataManager.java:229-249 | saved plus errors is the number of cached players, and the cache is untouched |
| Managers.PlayerDataManager.GetPlayer | src/main/java/gc/grivyzom/grivyzomCore/managers/PlayerDataManager.java:254-275 | the cached record when cached; otherwise the stored row if the query runs and finds it; otherwise empty |
| Managers.PlayerDataManager.GetPlayerByUsername | src/main/java/gc/grivyzom/grivyzomCore/managers/PlayerDataManager.java:280-305 | a cached record whose name matches under `equalsIgnoreCase` with the JDK's case tables, and only when none does, a row the `username = ?` query selects under the column's collation, if the query runs |
| Managers.PlayerDataManager.UpdatePlayerCoins | src/main/java/gc/grivyzom/grivyzomCore/managers/PlayerDataManager.java:310-331 | the store first; the cached coins change only if it ran and the player is cached; the result is whether it ran; nothing else changes |
| Managers.PlayerDataManager.UpdatePlayerGems | src/main/java/gc/grivyzom/grivyzomCore/managers/PlayerDataManager.java:336-357 | the store first; the cached gems change only if it ran and the player is cached; the result is whether it ran; nothing else changes |
| Managers.PlayerDataManager.GetTopPlayersByCoins | src/main/java/gc/grivyzom/grivyzomCore/managers/PlayerDataManager.java:362-380 | returns new records holding exactly the top rows |
| Managers.PlayerDataManager.GetPlayerStats | src/main/java/gc/grivyzom/grivyzomCore/managers/PlayerDataManager.java:385-391 | the online count is the cache size and the gem total is the `int` sum of the cached gems |
| Messaging.RouteTable | src/main/java/gc/grivyzom/grivyzomCore/messaging/PluginMessageManager.java:107-112 | core and economy go to the economy handler, rankup to the rankup handler, pvp to the pvp handler |
| Messaging.UnroutedChannelRunsNoHandler | src/main/java/gc/grivyzom/grivyzomCore/messaging/PluginMessageManager.java:98-113 | on any other channel the type is read and nothing else happens |
| Messaging.RequestTypeOf | src/main/java/gc/grivyzom/grivyzomCore/messaging/PluginMessageManager.java:127-251 | a handler's switch only selects a case of its own family with that tag |
| Messaging.TagsDistinct | src/main/java/gc/grivyzom/grivyzomCore/messaging/PluginMessageManager.java:127-251 | different message types have different tags |
| Messaging.TypeOfTag | src/main/java/gc/grivyzom/grivyzomCore/messaging/PluginMessageManager.java:127-251 | each message type's tag selects it in its own family's switch |
| Messaging.OtherFamilyHasNoCase | src/main/java/gc/grivyzom/grivyzomCore/messaging/PluginMessageManager.java:127-251 | a family's switch has no case for another family's tag, so it does nothing |
| Messaging.RequestFields | src/main/java/gc/grivyzom/grivyzomCore/messaging/PluginMessageManager.java:124-252 | each request's fields are read in the order and with the types its case reads them |
| Messaging.ParseFromClient | src/main/java/gc/grivyzom/grivyzomCore/messaging/PluginMessageManager.java:87-89 | a message that does not come from a backend server is ignored |
| Messaging.ParseRequest | src/main/java/gc/grivyzom/grivyzomCore/messaging/PluginMessageManager.java:98-251 | a request written by a backend server on its family's channel is read back as that request |
| Messaging.ParseOtherFamily | src/main/java/gc/grivyzom/grivyzomCore/messaging/PluginMessageManager.java:107-113 | a request sent on another family's channel is ignored |
| Messaging.ParseMalformedUuid | src/main/java/gc/grivyzom/grivyzomCore/messaging/PluginMessageManager.java:124-252 | a UUID string that does not parse ends the handler with the uncaught `IllegalArgumentException`, after all of the case's reads |
| Messaging.ParseTruncated | src/main/java/gc/grivyzom/grivyzomCore/messaging/PluginMessageManager.java:115-118 | a truncated request fails with an EOF error and serves nothing |
| Messaging.ReadPlayerDataResponse | src/main/java/gc/grivyzom/grivyzomCore/messaging/PluginMessageManager.java:262-276 | the player-data response reads back as the tag and every field of the record, a null last server as "" |
| Messaging.EntriesFieldsAppend | src/main/java/gc/grivyzom/grivyzomCore/messaging/PluginMessageManager.java:297-303 | the entries of two lists are the entries of each, one after the other |
| Messaging.ReadTopPlayersResponse | src/main/java/gc/grivyzom/grivyzomCore/messaging/PluginMessageManager.java:294-303 | the top-players response holds the list size and then exactly that many entries, in list order |
| Messaging.StrsReadBack | src/main/java/gc/grivyzom/grivyzomCore/messaging/PluginMessageManager.java:323-326 | a run of written strings reads back as the same strings |
| Messaging.ReadPayload | src/main/java/gc/grivyzom/grivyzomCore/messaging/PluginMessageManager.java:323-326 | a broadcast payload reads back as the type and then each datum, in argument order |
| PluginMessaging.PlayerDataReplyReadsBack | src/main/java/gc/grivyzom/grivyzomCore/messaging/PluginMessageManager.java:262-278 | a player-data reply goes on the core channel to the requesting server and reads back as the record |
| PluginMessaging.TopPlayersReplyReadsBack | src/main/java/gc/grivyzom/grivyzomCore/messaging/PluginMessageManager.java:294-305 | a top-players reply goes on the economy channel and reads back as the list |
| PluginMessaging.RequestTouchesOnlyItsPlayer | src/main/java/gc/grivyzom/grivyzomCore/messaging/PluginMessageManager.java:145-227 | reads change no row and no record; updates change only their player's row and record, and nothing when the update fails |
| PluginMessaging.BroadcastShape | src/main/java/gc/grivyzom/grivyzomCore/messaging/PluginMessageManager.java:316-337 | one message per server whose first player has a connection, each the same payload on the core channel; none when a write throws |
| PluginMessaging.PlayerUpdatePayload | src/main/java/gc/grivyzom/grivyzomCore/messaging/PluginMessageManager.java:342-344 | the player-update broadcast reads back as PLAYER_UPDATE, the UUID and the update type |
| PluginMessaging.MaintenancePayload | src/main/java/gc/grivyzom/grivyzomCore/messaging/PluginMessageManager.java:349-351 | the maintenance broadcast reads back as MAINTENANCE and START or END |
| PluginMessaging.PluginMessageManager.OnPluginMessage | src/main/java/gc/grivyzom/grivyzomCore/messaging/PluginMessageManager.java:86-119 | the outcome is what `ParseMessage` says; only a request read in full with a valid UUID is served, and everything else leaves all state untouched |
| PluginMessaging.PluginMessageManager.Serve | src/main/java/gc/grivyzom/grivyzomCore/messaging/PluginMessageManager.java:124-252 | a request changes the table and cache and sends the replies `RepliesTo` says |
| PluginMessaging.PluginMessageManager.ServeLookup | src/main/java/gc/grivyzom/grivyzomCore/messaging/PluginMessageManager.java:128-143 | a lookup sends the player-data reply exactly when the player was found |
| PluginMessaging.PluginMessageManager.ServeCoins | src/main/java/gc/grivyzom/grivyzomCore/messaging/PluginMessageManager.java:145-158 | UPDATE_COINS runs `updatePlayerCoins` and sends nothing |
| PluginMessaging.PluginMessageManager.ServeGems | src/main/java/gc/grivyzom/grivyzomCore/messaging/PluginMessageManager.java:160-173 | UPDATE_GEMS runs `updatePlayerGems` and sends nothing |
| PluginMessaging.PluginMessageManager.ServeTop | src/main/java/gc/grivyzom/grivyzomCore/messaging/PluginMessageManager.java:175-181 | GET_TOP_PLAYERS sends the reply for the top rows |
| PluginMessaging.PluginMessageManager.UpdateRank | src/main/java/gc/grivyzom/grivyzomCore/messaging/PluginMessageManager.java:192-226 | the row's rank is written; a cached record takes the rank only if the update ran and the player is online |
| PluginMessaging.PluginMessageManager.SendPlayerDataResponse | src/main/java/gc/grivyzom/grivyzomCore/messaging/PluginMessageManager.java:257-284 | sends exactly the player-data reply for the record |
| PluginMessaging.PluginMessageManager.SendTopPlayersResponse | src/main/java/gc/grivyzom/grivyzomCore/messaging/PluginMessageManager.java:289-311 | sends exactly the top-players reply for the list |
| PluginMessaging.PluginMessageManager.BroadcastMessage | src/main/java/gc/grivyzom/grivyzomCore/messaging/PluginMessageManager.java:316-337 | sends exactly the broadcast messages for the servers |
| PluginMessaging.PluginMessageManager.NotifyPlayerUpdate | src/main/java/gc/grivyzom/grivyzomCore/messaging/PluginMessageManager.java:342-344 | broadcasts PLAYER_UPDATE with the UUID and the update type |
| PluginMessaging.PluginMessageManager.NotifyMaintenance | src/main/java/gc/grivyzom/grivyzomCore/messaging/PluginMessageManager.java:349-351 | broadcasts MAINTENANCE with START or END |
| PluginMessaging.WriteTopPlayers | src/main/java/gc/grivyzom/grivyzomCore/messaging/PluginMessageManager.java:291-303 | the write loop succeeds exactly when the whole response encodes, and then holds its bytes |
| PluginMessaging.WriteAll | src/main/java/gc/grivyzom/grivyzomCore/messaging/PluginMessageManager.java:323-326 | writing the data in turn succeeds exactly when they all encode, and appends them all |
| DatabaseSettings.MissingReadsAsDefault | src/main/java/gc/grivyzom/grivyzomCore/database/DatabaseConfigManager.java:176-249 | a missing section or key reads as "", 0, 0L or false |
| DatabaseSettings.NumberGettersFailOnlyOnSection | src/main/java/gc/grivyzom/grivyzomCore/database/DatabaseConfigManager.java:199-249 | the number and boolean getters throw only when the section is not a map, and the number getters read 0 for a missing value or one that is not a `Number` |
| DatabaseSettings.WholeFloatReadsAsInteger | src/main/java/gc/grivyzom/grivyzomCore/database/DatabaseConfigManager.java:199-249 | a setting written as a floating-point whole number, such as `3306.0`, reads as that integer |
| DatabaseSettings.FoundMeaning | src/main/java/gc/grivyzom/grivyzomCore/database/DatabaseConfigManager.java:117-149 | a problem is reported exactly when its condition holds |
| DatabaseSettings.ValidateDatabaseConfig | src/main/java/gc/grivyzom/grivyzomCore/database/DatabaseConfigManager.java:116-156 | all checks run and report before the single verdict, which is `VerdictOf` |
| DatabaseSettings.ErrorsFound | src/main/java/gc/grivyzom/grivyzomCore/database/DatabaseConfigManager.java:120-149 | an error is reported exactly when host, database or username is empty, the port is outside 1..65535 or the pool size is not positive |
| DatabaseSettings.RejectedExactly | src/main/java/gc/grivyzom/grivyzomCore/database/DatabaseConfigManager.java:151-155 | validation throws exactly when an error was reported; the default password alone never fails it |
| DatabaseSettings.WrongTypeThrows | src/main/java/gc/grivyzom/grivyzomCore/database/DatabaseConfigManager.java:195-197 | a non-string host, database, username or password makes the getter's cast throw |
| DatabaseSettings.UrlSettingsOk | src/main/java/gc/grivyzom/grivyzomCore/database/DatabaseConfigManager.java:254-277 | the URL builder's reads succeed exactly when its sections are maps and its strings are strings |
| DatabaseSettings.JdbcUrlParameters | src/main/java/gc/grivyzom/grivyzomCore/database/DatabaseConfigManager.java:254-277 | the URL starts with "jdbc:mysql://host:port/database?" and splits at "&" into the nine parameters in their fixed order |
| DatabaseSettings.CreateDatabaseConfigFails | src/main/java/gc/grivyzom/grivyzomCore/database/DatabaseConfigManager.java:282-296 | building the configuration succeeds exactly when every value it reads has its expected type |
| DatabaseSettings.CreateDatabaseConfigUrl | src/main/java/gc/grivyzom/grivyzomCore/database/DatabaseConfigManager.java:282-296 | the configuration's URL is the built URL of the same host, port and database |
| Database.BindingKeepsValue | src/main/java/gc/grivyzom/grivyzomCore/database/DatabaseManager.java:303-324 | each argument is bound with its own type and value; only another object is sent as its text |
| Database.Bindings | src/main/java/gc/grivyzom/grivyzomCore/database/DatabaseManager.java:303-324 | exactly positions 1..n are bound, position k to argument k-1 |
| Database.BindParameter | src/main/java/gc/grivyzom/grivyzomCore/database/DatabaseManager.java:305-322 | one argument is bound at its position by the setter its runtime class selects |
| Database.SetParameters | src/main/java/gc/grivyzom/grivyzomCore/database/DatabaseManager.java:303-324 | argument i is bound at position i+1, for every argument |
| Database.TransactionBracket | src/main/java/gc/grivyzom/grivyzomCore/database/DatabaseManager.java:334-351 | the unit runs with auto-commit off; success exactly when an explicit commit() goes through; a rollback exactly on an SQLException; no explicit commit() after a failing unit; restoring auto-commit ends with the implicit commit exactly when the saved mode was on; the unit's work reaches the database exactly on success or on an unchecked failure under saved auto-commit |
| Database.Connection.SetAutoCommit | src/main/java/gc/grivyzom/grivyzomCore/database/DatabaseManager.java:350 | sets the mode, and turning auto-commit back on during a transaction commits it |
| Database.DatabaseManager.constructor | src/main/java/gc/grivyzom/grivyzomCore/database/DatabaseManager.java:23-27 | no connection, not connected, no monitor |
| Database.DatabaseManager.Initialize | src/main/java/gc/grivyzom/grivyzomCore/database/DatabaseManager.java:32-76 | connects with auto-commit on, raises the flag, runs "SELECT 1" and only then starts the monitor; a failed connect changes nothing |
| Database.DatabaseManager.Reconnect | src/main/java/gc/grivyzom/grivyzomCore/database/DatabaseManager.java:221-243 | closes the old connection; on success the flag is up with auto-commit on, on failure the flag is down |
| Database.DatabaseManager.MonitorTick | src/main/java/gc/grivyzom/grivyzomCore/database/DatabaseManager.java:193-202 | reconnects exactly when the connection is not valid, and otherwise changes nothing |
| Database.DatabaseManager.ExecuteUpdate | src/main/java/gc/grivyzom/grivyzomCore/database/DatabaseManager.java:248-257 | refused with nothing run unless connected; otherwise the statement runs once with its parameters bound |
| Database.DatabaseManager.ExecuteQuery | src/main/java/gc/grivyzom/grivyzomCore/database/DatabaseManager.java:262-270 | refused with nothing run unless connected; otherwise the statement runs once with its parameters bound |
| Database.DatabaseManager.ExecuteTransaction | src/main/java/gc/grivyzom/grivyzomCore/database/DatabaseManager.java:329-352 | refused unless connected; otherwise the calls, including the implicit commit of restoring the saved auto-commit mode, and the outcome are `TransactionCalls`/`TransactionResult`, and the saved mode is restored |
| Database.DatabaseManager.Close | src/main/java/gc/grivyzom/grivyzomCore/database/DatabaseManager.java:400-419 | afterwards not connected, monitor stopped, connection closed; a second call changes nothing |

## Left out

- `Main.java` is not part of this model. It is plugin bootstrap, shutdown, the static singleton and event registration.
- `ConfigManager.java` is not part of this model. It is a thin wrapper over the TOML library, and reading `config.toml` is file I/O.
- `MessageUtils.java` and every log or debug message are left out. Console output does not affect control flow. This includes the debug-mode messages in `PluginMessageManager` and the debug message in `executeTransaction`, which reads the undeclared `configManager`.
- The file and YAML I/O of `DatabaseConfigManager` is left out: `loadDatabaseConfig`, `createDefaultDatabaseConfig`, `reloadDatabaseConfig` and `printDatabaseInfo`. The parsed document is a parameter.
- The `DatabaseConfig` getters and `GrivyzomPlayer`'s getters and `toString` are plain field reads or text output, so they are left out.
- `DatabaseManager`'s second constructor and `initialize` (lines 127-168) are left out, because they refer to a field the class does not declare.
- The SQL text is left out: the `CREATE TABLE` strings, `getStats` (COUNT queries), `ON DUPLICATE KEY` beyond what `InsertPlayer` states, and collation.
  - `ORDER BY coins DESC LIMIT ?` is given as a ranking of the table (`IsCoinRanking`).
  - `fromResultSet` copies a row into a record.
- `executeQueryAsync` and `executeUpdateAsync` are left out. Each only runs the synchronous method on the executor.
- Concurrency is left out: `CompletableFuture` tasks, the thread-safety of `ConcurrentHashMap` and the scheduled executor.
  - Each asynchronous task is one sequential method.
  - The monitor is one tick (`MonitorTick`).
  - Interleavings of tasks are not modelled.
- Database.DatabaseManager.Close: `close`, `isClosed`, `setAutoCommit`, `rollback` and `executor.awaitTermination` never throw in the model. A connection only becomes invalid through its `valid` field, which the server, not the plugin, changes.
- Database.DatabaseManager.ExecuteTransaction: a rollback that itself throws is not modelled, and neither is a `setAutoCommit` in the `finally` block that throws, so the implicit commit always goes through. The unit of work is summarised by how it ends (`UnitOutcome`), not by the statements it runs.
- Database.DatabaseManager.ExecuteQuery: the rows of the result set are not modelled, and neither is closing the statement.
- JavaBase.EqualsIgnoreCase: `Character.toUpperCase` and `Character.toLowerCase` are a parameter (`CaseMapping`), because they are the JDK's Unicode tables. A surrogate pair is compared one code unit at a time; JDK 16 and later fold the pair as one supplementary code point.
- Managers.PlayerDataManager.GetPlayerByUsername: the database's `username = ?` match is a parameter (`sqlEquals`), because it depends on the column's collation. Which of several matching rows the query returns first is not modelled.
- Uuids.HexValue: only the ASCII hex digits 0-9, a-f and A-F count as digits. `UUID.fromString` falls back to `Long.parseLong`, whose `Character.digit` also accepts other Unicode decimal digits, such as fullwidth ones, and the fullwidth letters A-F. Java parses such strings; the model refuses them.
- Messaging.ParseMalformedUuid: because of `Uuids.HexValue` above, it claims the `IllegalArgumentException` outcome also for a UUID text with non-ASCII digits, which Java serves.
- Managers.TopRowsAreTop: it assumes the table has a coin ranking. None exists once a NaN balance sits beside another row. The model's store accepts NaN, which a MySQL `DOUBLE` column does not.
- PlayerStore.InsertPlayer: the values of the columns the INSERT does not write are a parameter (`ColumnDefaults`). The only table definition in the source (`DatabaseManager.java` lines 79-90) has none of these columns, so their defaults are unknown.
- PlayerModel.ReadFormatPlaytime: the round trip holds only for a non-negative playtime. `PlayerModel.NegativePlaytimeShowsSeconds` states what a negative one prints.
- PlayerModel.ElapsedBuckets: the buckets hold only for a non-negative elapsed time. `PlayerModel.ElapsedNegative` states what a last join in the future prints.
- PlayerModel.PlayerData: `username`, `displayName` and `rankId` are never null in the model. Null strings in stored rows are not modelled. `fromResultSet` could read a NULL `display_name` or `rank_id`, and `writeUTF` would then throw a `NullPointerException` that the `IOException` handlers do not catch.
- JavaBase.DecRoundTrip: `%d` in `String.format` is modelled with ASCII digits. Java's `Formatter` uses the default locale's zero digit; string concatenation always uses ASCII digits.
- Float64.Add: only NaN and infinity are stated. Rounding of finite sums and differences is defined but not proved against IEEE 754.
- Managers.PlayerDataManager.GetPlayerStats: the `totalCoins` double sum is not modelled. Its order-dependent rounding makes it unfit for an exact statement.
- `getPlayerCache` is left out. It returns a copy of the cache map and changes nothing.
- The Velocity API is modelled only in part.
  - Registering and unregistering channels is left out.
  - `sendPluginMessage` appends to `sent`.
  - `getAllServers` and the players on each server are parameters.
  - Whether the proxy has a player online is a parameter.
- `System.currentTimeMillis()` is left out. The current time is a parameter.
