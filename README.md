# Finder: a verified model of the Rubinot tracker's core

Finder tracks the characters of the Rubinot game servers. A scraper reads the
game site's pages on a schedule:

- the highscores, from which it derives experience gains;
- who is online, which opens and closes hunting sessions;
- the killboard, which records deaths;
- the per-player playtime history;
- the guild member lists.

A backend keeps the results in a database. It also serves them behind
token authentication, with guild management for approved users. A frontend
store keeps the dashboard's lists up to date from WebSocket events.

This project models that core in Dafny and proves what each part promises.

## How the model is built

- Page contents are values. A scraped page is a table of rows of cell
  strings (`Pages`). The HTML parsing that produces such a table is not
  part of this model.
- Every database table is a value (`Models.Db`). Tables with a natural key
  are maps; the others are sequences in insertion order. A player is
  identified by its name and server. Guild and user ids come from counters.
- Each scraper's loop over fetched pages is a `method` with loop
  invariants. It returns the new tables and is proved against a
  specification function over the same input (for example
  `Highscores.ApplyServers`, `OnlinePlayers.ApplyServers`,
  `Killboard.ApplyServers`).
- `BaseScraper.Scraper` (retry with exponential backoff, the running flag,
  the next run time and the run log) and `Scheduler.SchedulerService` are
  classes whose methods update their fields.
- The frontend store is a class. Its handlers replace its list fields.
- Fetching pages, the clock, parsing the site's date strings, bcrypt and jwt
  are function parameters. Their results are whatever the parameter
  returns.

Modules, one per source file:

- `Wrappers`: `Option`, `Result`, `Outcome`, JavaScript truthiness.
- `JsString`: `trim`, `split`, `toLowerCase`, `includes` and number
  printing, as the source uses them.
- `ParserUtils`: `scraper/src/utils/parser.utils.ts`, the number, level,
  vocation and name parsers.
- `Models`: the entities and tables.
- `Pages`: scraped tables and row iteration.
- `BaseScraper`: `scraper/src/scrapers/base.scraper.ts`.
- `Highscores`, `OnlinePlayers`, `Killboard`, `Playtime`, `GuildMembers`:
  the five scrapers.
- `Scheduler`: `scraper/src/scheduler.service.ts`.
- `Repository`: `backend/src/database/repository.ts`.
- `AuthMiddleware`, `AuthService`, `GuildService`: the backend's middleware
  and services.
- `DataStore`: `frontend/src/store/dataStore.ts`.
- `Format`: `frontend/src/utils/format.ts`.

Two behaviours are easy to misread as something else. The model keeps
them as the code has them:

- `parseLevel` returns 1 for a cell without digits. It also returns 1 for
  the cell "1", so a level of 1 does not mean the cell had no digits.
  `ParserUtils.ParseNoDigits` and `ParserUtils.ParseExperienceRoundTrip`
  state both cases.
- `updateGuild` checks no names, unlike `createGuild`.
  `GuildService.UpdateGuildMayDuplicate` shows a rename that leaves two
  guilds of one server with the same name.

## Model

| member | source | states |
|---|---|---|
| JsString.Trim | scraper/src/utils/parser.utils.ts:8-14 | `trim`: the result is a slice of the input with no white space at either end, empty exactly when the input is all white space |
| JsString.TrimTrimmed | scraper/src/utils/parser.utils.ts:8-14 | trimming trimmed text changes nothing |
| JsString.TrimIdempotent | scraper/src/utils/parser.utils.ts:8-14 | trimming twice is trimming once |
| JsString.Split | backend/src/middleware/auth.middleware.ts:25 | `split(' ')`: at least one part, none containing the separator |
| JsString.JoinSplit | backend/src/middleware/auth.middleware.ts:25 | joining the parts with the separator gives the input back |
| JsString.SplitNoSep | backend/src/middleware/auth.middleware.ts:25 | text without the separator is one part |
| JsString.SplitAfterFirst | backend/src/middleware/auth.middleware.ts:25 | the text before the first separator is the first part, and the rest is split on |
| JsString.ToLower | frontend/src/utils/format.ts:28 | `toLowerCase` on the letters A-Z: each of those is lowered, every other character is kept, and the length is kept |
| JsString.NatToString | scraper/src/utils/parser.utils.ts:43-50 | the decimal rendering of a number: digits only, with no leading zero |
| ParserUtils.ParsePlayerName | scraper/src/utils/parser.utils.ts:6-10 | the result is trimmed and no '(' in it is followed by a ')': no group the pattern removes is left |
| ParserUtils.ParsePlayerNameNoParen | scraper/src/utils/parser.utils.ts:8 | on text without '(' the result is the text trimmed |
| ParserUtils.ParsePlayerNameIdempotent | scraper/src/utils/parser.utils.ts:8 | parsing a parsed name changes nothing |
| ParserUtils.StripGroupsWithTitle | scraper/src/utils/parser.utils.ts:8 | a name followed by ' (title)' has the space and the whole group removed |
| ParserUtils.ParsePlayerNameWithTitle | scraper/src/utils/parser.utils.ts:6-10 | a name followed by ' (title)' parses to the name trimmed |
| ParserUtils.StripGroupsExample | scraper/src/utils/parser.utils.ts:8 | 'Aeon (Guild Leader)' has its title removed |
| ParserUtils.ParsePlayerNameExample | scraper/src/utils/parser.utils.ts:6-10 | 'Aeon (Guild Leader)' parses to 'Aeon' |
| ParserUtils.ParseVocation | scraper/src/utils/parser.utils.ts:13-33 | the result is never a base vocation; a vocation is returned only for its own or its base's name (after trimming); 'None' and every other string map to None |
| ParserUtils.ParseVocationName | scraper/src/utils/parser.utils.ts:16-28 | every vocation's name, base or promoted, maps to the promoted vocation |
| ParserUtils.Digits | scraper/src/utils/parser.utils.ts:37-44 | `replace(/[^0-9]/g, '')`: only digits are left |
| ParserUtils.DigitsAppend | scraper/src/utils/parser.utils.ts:37-44 | the digit filter works piece by piece, keeping the digits in order |
| ParserUtils.DigitsOfDigits | scraper/src/utils/parser.utils.ts:37-44 | the filter leaves a digit string as it is |
| ParserUtils.DecimalValueAppend | scraper/src/utils/parser.utils.ts:46 | the value of two digit strings side by side shifts the first by the second's length |
| ParserUtils.ParseExperienceAppend | scraper/src/utils/parser.utils.ts:43-50 | the experience of two texts side by side is the first's value shifted by the second's digit count plus the second's value: the value of the digits in order |
| ParserUtils.ParseExperienceRoundTrip | scraper/src/utils/parser.utils.ts:36-50 | a number's decimal rendering parses back to the number, as level and as experience; so '0' is level 0 |
| ParserUtils.ParseNoDigits | scraper/src/utils/parser.utils.ts:36-50 | text with no digit parses to level 1 (`NaN`) and experience 0 |
| ParserUtils.ParseLevel | scraper/src/utils/parser.utils.ts:36-39 | `parseInt` of the digits: 1 when the text has no digit (`NaN`), otherwise the same number as the experience parser reads from the same text, never negative |
| ParserUtils.ParseExperience | scraper/src/utils/parser.utils.ts:43-50 | `BigInt` of the digits: exact and unbounded, 0 when there is no digit, and below 10 to the number of digits |
| ParserUtils.ParseExperienceExample | scraper/src/utils/parser.utils.ts:43-50 | '12,345,678,901' parses exactly to 12345678901, beyond 32 bits |
| ParserUtils.DigitPrefix | scraper/src/scrapers/highscores.scraper.ts:229 | `parseInt` reads the longest run of leading digits |
| ParserUtils.ParseInt | scraper/src/scrapers/highscores.scraper.ts:229 | `parseInt` of the rank cell: `NaN` exactly when no digit follows the white space and sign, otherwise the signed decimal value of the leading digits, below 10 to their count in magnitude |
| ParserUtils.ParseIntRoundTrip | scraper/src/scrapers/highscores.scraper.ts:229 | `parseInt(String(i))` is `i` for every integer, negative ones included |
| ParserUtils.ValidateRequired | scraper/src/utils/parser.utils.ts:81-85 | fails exactly on null, undefined and '', with 'Required field missing: <field>'; 0 and false pass |
| ParserUtils.ServerPayload | scraper/src/utils/parser.utils.ts:123-127 | exactly the key `server`, bound to the server name |
| ParserUtils.GuildFilterPayload | scraper/src/utils/parser.utils.ts:130-135 | exactly the keys `server` and `guild`, bound to the arguments |
| ParserUtils.HighscoresPayload | scraper/src/utils/parser.utils.ts:138-143 | exactly the keys `server` and `page`; the page defaults to 1 |
| Pages.Checked | scraper/src/scrapers/highscores.scraper.ts:213-217 | a 200 response yields its body; any other status that reaches the scraper fails with 'Failed to load <page>: <status>'; an error of the HTTP client, which also rejects every status from 400 up, is passed on unchanged (the same check opens every scraper's fetch) |
| Pages.Kept | scraper/src/scrapers/highscores.scraper.ts:222-248 | the `table tr` loop keeps at most one item per row after the header |
| Pages.EachRow | scraper/src/scrapers/highscores.scraper.ts:222-248 | the row loop, skipping index 0 and pushing every parsed row, computes `Kept` |
| Pages.KeptStep | scraper/src/scrapers/highscores.scraper.ts:222-244 | each row after the header adds its parsed item at the end when it parses, and nothing otherwise |
| Pages.KeptSound | scraper/src/scrapers/highscores.scraper.ts:222-244 | every kept item comes from some row after the header |
| Pages.KeptComplete | scraper/src/scrapers/highscores.scraper.ts:222-244 | every row after the header that parses is kept |
| Pages.KeptAll | scraper/src/scrapers/highscores.scraper.ts:222-244 | a property every parsed row has holds of every kept item |
| Pages.KeptIgnoresHeader | scraper/src/scrapers/highscores.scraper.ts:223 | the header row's contents never matter |
| BaseScraper.Backoff | scraper/src/scrapers/base.scraper.ts:96-98 | the delay after failed attempt n is min(1000·2^(n−1), 30000) ms, never above the 30 s cap |
| BaseScraper.BackoffDoubles | scraper/src/scrapers/base.scraper.ts:96-98 | below the cap each further attempt doubles the delay |
| BaseScraper.BackoffMonotone | scraper/src/scrapers/base.scraper.ts:96-98 | later attempts never wait less |
| BaseScraper.BackoffCapped | scraper/src/scrapers/base.scraper.ts:96-98 | from the sixth attempt on the delay is exactly the 30 s cap |
| BaseScraper.Backoffs | scraper/src/scrapers/base.scraper.ts:78-82 | the waits between attempts `from` and `to` are one back-off per attempt, in order |
| BaseScraper.RetryFrom | scraper/src/scrapers/base.scraper.ts:71-89 | the retry loop calls `scrape` at most once per remaining attempt |
| BaseScraper.RetryFromFirstReturned | scraper/src/scrapers/base.scraper.ts:71-82 | from any attempt on, the first call that does not throw ends the loop with its own result, even a failed one, after one back-off per earlier throw |
| BaseScraper.RetryFirstReturned | scraper/src/scrapers/base.scraper.ts:71-82 | `scrapeWithRetry` returns the result of the first non-throwing call k after exactly k calls and the waits Backoff(1) … Backoff(k−1) |
| BaseScraper.RetryFromAllThrow | scraper/src/scrapers/base.scraper.ts:71-89 | when every remaining call throws, the loop makes them all and fails with 'Failed after N attempts: ' and the last message |
| BaseScraper.RetryAllThrow | scraper/src/scrapers/base.scraper.ts:71-89 | when every call throws: N calls, N−1 waits (none after the last attempt), and the 'Failed after N attempts: <last message>' failure |
| BaseScraper.RetryDefaultWaits | scraper/src/scrapers/base.scraper.ts:78-89 | with the default three attempts all throwing: three calls, waits of exactly 1000 then 2000 ms, and the failure message of the third throw |
| BaseScraper.NextRun | scraper/src/scrapers/base.scraper.ts:100-104 | `nextRun` becomes now + interval when the interval is positive and is unchanged otherwise |
| BaseScraper.StringOrNull | scraper/src/utils/scraper-logger.ts:19 | `message \|\| null`: an empty message is stored as null, any other as itself |
| BaseScraper.NumberOrNull | scraper/src/utils/scraper-logger.ts:19 | `executionTime \|\| null`: a zero execution time is stored as null, any other as itself |
| BaseScraper.LogFor | scraper/src/scrapers/base.scraper.ts:43-51 | a returned result logs success with 'Scraping completed successfully', or error with its message (or 'Unknown error' when it has none), under the scraper's name and with the execution time |
| BaseScraper.Scraper.constructor | scraper/src/scrapers/base.scraper.ts:12-24 | a new scraper is not running and has neither a last nor a next run |
| BaseScraper.Scraper.ScrapeWithRetry | scraper/src/scrapers/base.scraper.ts:68-90 | the loop's result, number of calls and waits are those of `Retry` (and so of the lemmas above) |
| BaseScraper.Scraper.ScheduleNextRun | scraper/src/scrapers/base.scraper.ts:100-104 | changes only `nextRun`, to `NextRun` of the old value |
| BaseScraper.Scraper.BeginExecute | scraper/src/scrapers/base.scraper.ts:29-34 | starts exactly when the scraper was not running, and leaves it running |
| BaseScraper.Scraper.FinishExecute | scraper/src/scrapers/base.scraper.ts:41-51 | after a returned result: not running, `lastRun` set, one log row appended, `nextRun` rescheduled |
| BaseScraper.Scraper.Execute | scraper/src/scrapers/base.scraper.ts:28-66 | while running: 'Scraper is already running' and nothing changes (`scrape` is not called); otherwise the retry result, one log row, `lastRun` set, `isRunning` false and `nextRun` rescheduled |
| BaseScraper.Scraper.Status | scraper/src/scrapers/base.scraper.ts:106-120 | `getStatus` reports the name, running flag, last and next run and the enabled flag as they are |
| Highscores.ParseRow | scraper/src/scrapers/highscores.scraper.ts:225-244 | a row is kept iff it has at least four cells, a non-empty parsed name and a level above 0; the entry's name is trimmed and free of "(…)" groups and its name is `parsePlayerName` of the second cell's trimmed text, its level `parseLevel` of the third, its rank `parseInt` of the first and its experience the fourth's digits' exact value |
| Highscores.PageEntries | scraper/src/scrapers/highscores.scraper.ts:213-250 | a page succeeds iff the response status is 200, and then holds exactly the kept rows after the header, in order |
| Highscores.PageEntriesAccepted | scraper/src/scrapers/highscores.scraper.ts:237-244 | every entry of a page passes the row filter |
| Highscores.ScrapeHighscoresPage | scraper/src/scrapers/highscores.scraper.ts:204-251 | the row loop computes exactly `PageEntries` of this server's page |
| Highscores.PagesFrom | scraper/src/scrapers/highscores.scraper.ts:184-199 | from page p on, at least one and at most 16 − p pages are requested |
| Highscores.PagesFromAccepted | scraper/src/scrapers/highscores.scraper.ts:184-199 | every entry the page loop collects passes the row filter |
| Highscores.ScrapeHighscores | scraper/src/scrapers/highscores.scraper.ts:180-202 | the page loop computes `PagesFrom` page 1 and requests between 1 and 15 pages |
| Highscores.PagesFromUnfold | scraper/src/scrapers/highscores.scraper.ts:184-199 | an empty or failing page ends the loop with nothing more; a full page's entries come before those of the following pages |
| Highscores.PagesFromFull | scraper/src/scrapers/highscores.scraper.ts:184-199 | across a run of full pages the entries are those pages' entries concatenated in page order, one request per page |
| Highscores.PagesStopAt | scraper/src/scrapers/highscores.scraper.ts:184-199 | the loop stops at the first empty or failing page, having requested it and returned the earlier pages' entries in order |
| Highscores.PagesAllFull | scraper/src/scrapers/highscores.scraper.ts:184-199 | when all 15 pages are full, exactly 15 are requested and all their entries returned in page order |
| Highscores.LastActive | scraper/src/scrapers/highscores.scraper.ts:106-113 | the last appended active session of the player (no later one is active), or none when the player has no active session |
| Highscores.ChangeOf | scraper/src/scrapers/highscores.scraper.ts:83-137 | with no previous snapshot nothing happens; a gain is a strictly positive XP increase with a strictly later time, measured against the last stored snapshot; an idle entry has exactly the same XP |
| Highscores.ApplyEntryPlayer | scraper/src/scrapers/highscores.scraper.ts:54-61 | the entry's player is upserted by (name, server) with its level; a new player gets vocation None and no guild, an existing one keeps vocation and guild; no other player changes |
| Highscores.ApplyEntrySnapshot | scraper/src/scrapers/highscores.scraper.ts:66-80 | every entry appends exactly one snapshot (level, experience, now) to its own player's history and to no other |
| Highscores.ApplyEntryFirstSnapshot | scraper/src/scrapers/highscores.scraper.ts:54-83 | with no previous snapshot an entry leaves statuses and sessions unchanged |
| Highscores.ApplyEntryGain | scraper/src/scrapers/highscores.scraper.ts:92-134 | a gain sets `is_hunting`, touching no other status, and adds the gain to the latest active session or, with none, appends a new active session holding the gain |
| Highscores.CloseActiveEffect | scraper/src/scrapers/highscores.scraper.ts:148-153 | closing sessions ends every active session of the player at now, keeps every `xp_gained`, and leaves other players' sessions as they were |
| Highscores.ApplyEntryIdle | scraper/src/scrapers/highscores.scraper.ts:137-153 | a zero gain clears `is_hunting` and closes every active session of the player without changing any `xp_gained` |
| Highscores.ApplyEntryNoBranch | scraper/src/scrapers/highscores.scraper.ts:92-155 | a negative gain, or a positive gain with no elapsed time, changes neither statuses nor sessions |
| Highscores.AddGainOneActive | scraper/src/scrapers/highscores.scraper.ts:115-133 | adding a gain keeps at most one active session per player |
| Highscores.CloseActiveOneActive | scraper/src/scrapers/highscores.scraper.ts:148-153 | closing sessions keeps at most one active session per player |
| Highscores.ApplyEntryOneActive | scraper/src/scrapers/highscores.scraper.ts:92-155 | one entry keeps at most one active session per player |
| Highscores.AddGainGrows | scraper/src/scrapers/highscores.scraper.ts:115-133 | adding a positive gain removes no session and never lowers an `xp_gained` |
| Highscores.CloseActiveGrows | scraper/src/scrapers/highscores.scraper.ts:148-153 | closing sessions removes none and lowers no `xp_gained` |
| Highscores.ApplyEntrySessionsGrow | scraper/src/scrapers/highscores.scraper.ts:92-155 | one entry removes no session and never lowers an `xp_gained` |
| Highscores.SessionsGrowTransitive | scraper/src/scrapers/highscores.scraper.ts:52-156 | session growth composes across entries |
| Highscores.ApplyServersSnoc | scraper/src/scrapers/highscores.scraper.ts:47-170 | the servers are processed one after another, in order |
| Highscores.ApplyAll | scraper/src/scrapers/highscores.scraper.ts:52-156 | the entry loop applies every entry in order |
| Highscores.ScrapeServer | scraper/src/scrapers/highscores.scraper.ts:49-162 | one server's data is its page run, and its entries are all applied |
| Highscores.Scrape | scraper/src/scrapers/highscores.scraper.ts:34-172 | succeeds with one data item per server, in order, with the database after every entry of every server; no servers means success with nothing changed |
| Highscores.ApplyEntriesInvariants | scraper/src/scrapers/highscores.scraper.ts:52-156 | a whole entry list keeps at most one active session per player and never removes a session or lowers its XP |
| Highscores.ApplyServersInvariants | scraper/src/scrapers/highscores.scraper.ts:47-170 | the whole scrape keeps at most one active session per player and never removes a session or lowers its XP |
| OnlinePlayers.ParseRow | scraper/src/scrapers/online-players.scraper.ts:125-137 | a row is kept iff it has at least three cells, a non-empty parsed name and a level above 0; the kept player's name is trimmed and is `parsePlayerName` of the first cell's trimmed text, its level is `parseLevel` of the second, and its vocation is the parsed one, never a base vocation |
| OnlinePlayers.Listing | scraper/src/scrapers/online-players.scraper.ts:112-143 | a listing succeeds iff the response status is 200, and then holds exactly the kept rows after the header, in order |
| OnlinePlayers.ScrapeOnlinePlayers | scraper/src/scrapers/online-players.scraper.ts:107-144 | the row loop computes exactly `Listing` of the server's worlds page |
| OnlinePlayers.SweepOffline | scraper/src/scrapers/online-players.scraper.ts:52-58 | the offline sweep creates and removes no status row |
| OnlinePlayers.MarkAllListed | scraper/src/scrapers/online-players.scraper.ts:61-82 | every listed player ends online with `last_seen` = now |
| OnlinePlayers.MarkAllUnlisted | scraper/src/scrapers/online-players.scraper.ts:61-82 | the listing loop touches no player or status of another server or not in the listing |
| OnlinePlayers.MarkAllHunting | scraper/src/scrapers/online-players.scraper.ts:75-81 | the listing loop never changes an `is_hunting` flag, and a new status row starts not hunting |
| OnlinePlayers.MarkAllKeys | scraper/src/scrapers/online-players.scraper.ts:61-82 | the listing loop removes no status row |
| OnlinePlayers.MarkAllFrame | scraper/src/scrapers/online-players.scraper.ts:61-82 | the listing loop writes only the players and statuses tables |
| OnlinePlayers.ApplyServerListed | scraper/src/scrapers/online-players.scraper.ts:52-82 | after a successful cycle every listed player is online with `last_seen` = now |
| OnlinePlayers.ApplyServerAbsent | scraper/src/scrapers/online-players.scraper.ts:52-80 | a player of that server absent from the listing ends offline with `last_seen` and `is_hunting` unchanged |
| OnlinePlayers.ApplyServerOthers | scraper/src/scrapers/online-players.scraper.ts:52-81 | players and statuses of other servers are not modified |
| OnlinePlayers.ApplyServerHunting | scraper/src/scrapers/online-players.scraper.ts:52-80 | no `is_hunting` flag is modified |
| OnlinePlayers.ApplyServerFrame | scraper/src/scrapers/online-players.scraper.ts:47-82 | a server's cycle writes only the players and statuses tables |
| OnlinePlayers.ApplyServerLastUpsert | scraper/src/scrapers/online-players.scraper.ts:63-70 | a listed player is upserted by (name, server), level and vocation overwritten and the guild kept (none for a new player) |
| OnlinePlayers.ApplyServersSnoc | scraper/src/scrapers/online-players.scraper.ts:45-97 | the servers are processed one after another, in order |
| OnlinePlayers.SucceededSnoc | scraper/src/scrapers/online-players.scraper.ts:45-97 | a server whose listing fails adds no result; one that succeeds adds its listing, in server order |
| OnlinePlayers.Scrape | scraper/src/scrapers/online-players.scraper.ts:32-99 | succeeds with the listings of the servers that loaded, having applied only those; a failed fetch leaves that server's statuses untouched and does not stop the later servers |
| OnlinePlayers.SweepAndMark | scraper/src/scrapers/online-players.scraper.ts:47-82 | one server's sweep and listing loop compute `ApplyServer`: the sweep, then every listed player in order |
| OnlinePlayers.SucceededExactly | scraper/src/scrapers/online-players.scraper.ts:45-97 | a data item is in the results iff it is the loaded listing of one of the servers |
| Killboard.ParseRow | scraper/src/scrapers/killboard.scraper.ts:123-139 | a row is kept iff it has at least three cells, a non-empty parsed victim name and a parsed time; the victim is `parsePlayerName` of the first cell's trimmed text and the time the parsed third cell; an empty killer text becomes null, any other is kept trimmed |
| Killboard.Board | scraper/src/scrapers/killboard.scraper.ts:110-145 | a killboard succeeds iff the response status is 200, and then holds exactly the kept rows after the header, in order |
| Killboard.ScrapeKillboard | scraper/src/scrapers/killboard.scraper.ts:103-146 | the row loop computes `Board` of the server's killboard, posted with the server payload |
| Killboard.VictimId | scraper/src/scrapers/killboard.scraper.ts:61-66 | the victim id is the player with that name on that server, or null when there is none |
| Killboard.IsAllyDeath | scraper/src/scrapers/killboard.scraper.ts:149-161 | the victim's guild's `is_ally` flag; false for an unknown victim, a victim without a guild or a guild that is gone |
| Killboard.IngestAppends | scraper/src/scrapers/killboard.scraper.ts:51-79 | one death only ever appends at most one row to the deaths table and writes no other table |
| Killboard.IngestNew | scraper/src/scrapers/killboard.scraper.ts:59-75 | a death not yet recorded under (victim, time, server) is appended with its victim id and ally flag |
| Killboard.RecordedGrows | scraper/src/scrapers/killboard.scraper.ts:53-59 | a death recorded stays recorded as the table grows |
| Killboard.IngestUnique | scraper/src/scrapers/killboard.scraper.ts:53-59 | the check-then-insert keeps (victim, time, server) unique in the table |
| Killboard.IngestAllAppends | scraper/src/scrapers/killboard.scraper.ts:51-79 | the whole loop never updates or removes a row; it only appends, at most one per scraped death |
| Killboard.IngestAllRecorded | scraper/src/scrapers/killboard.scraper.ts:51-79 | after the loop every scraped death is recorded |
| Killboard.IngestAllUnique | scraper/src/scrapers/killboard.scraper.ts:51-79 | the loop keeps the table free of duplicates, also for duplicates within one batch |
| Killboard.IngestAllRecordedNoop | scraper/src/scrapers/killboard.scraper.ts:53-59 | a batch of deaths that are all recorded changes nothing |
| Killboard.IngestAllIdempotent | scraper/src/scrapers/killboard.scraper.ts:51-79 | ingesting the same batch twice gives the same table as once |
| Killboard.IngestTwice | scraper/src/scrapers/killboard.scraper.ts:51-79 | a death occurring twice in one batch yields one row |
| Killboard.ApplyServersSnoc | scraper/src/scrapers/killboard.scraper.ts:45-93 | the servers are processed one after another, in order |
| Killboard.SucceededSnoc | scraper/src/scrapers/killboard.scraper.ts:45-93 | a server whose killboard fails adds no result and does not stop the later servers |
| Killboard.StoreDeaths | scraper/src/scrapers/killboard.scraper.ts:51-79 | the death loop computes `IngestAll` |
| Killboard.Scrape | scraper/src/scrapers/killboard.scraper.ts:32-95 | succeeds with the boards of the servers that loaded, having ingested only those |
| Killboard.ApplyServersInvariants | scraper/src/scrapers/killboard.scraper.ts:32-95 | the whole scrape keeps the deaths unique, only appends to them and writes no other table |
| Playtime.IndexOf | scraper/src/scrapers/playtime.scraper.ts:150-152 | `patterns.find`: the first pattern of the (hour, day) bucket, or none when there is none |
| Playtime.IndexFrom | scraper/src/scrapers/playtime.scraper.ts:150-152 | the search from position k on finds the first pattern of the bucket |
| Playtime.RowSlot | scraper/src/scrapers/playtime.scraper.ts:138-147 | a row with fewer than two cells contributes nothing; otherwise its bucket is that of its first cell's parsed time |
| Playtime.IndexOfIs | scraper/src/scrapers/playtime.scraper.ts:150-152 | the search returns the first position holding the bucket |
| Playtime.TallyEffect | scraper/src/scrapers/playtime.scraper.ts:149-162 | one row increments exactly its own bucket by one, a missing bucket starting at 1, and no other |
| Playtime.TallyUnique | scraper/src/scrapers/playtime.scraper.ts:149-162 | one row keeps the buckets unique per (hour, day) and every frequency positive |
| Playtime.TotalUpdate | scraper/src/scrapers/playtime.scraper.ts:154-155 | changing one frequency changes the total by the difference |
| Playtime.TallyTotal | scraper/src/scrapers/playtime.scraper.ts:149-162 | one row adds exactly one to the sum of the frequencies |
| Playtime.TalliedCounts | scraper/src/scrapers/playtime.scraper.ts:135-163 | the built buckets are unique and positive, each bucket's frequency is the number of rows in it, and the frequencies sum to the number of rows with a parsed time |
| Playtime.TalliedSnoc | scraper/src/scrapers/playtime.scraper.ts:135-163 | the rows are tallied one after another, in order |
| Playtime.History | scraper/src/scrapers/playtime.scraper.ts:101-178 | a 200 page gives the histogram of the rows under the history heading; a failure containing '404' gives no patterns; every other failure is an error for the caller |
| Playtime.History404 | scraper/src/scrapers/playtime.scraper.ts:114-171 | a 404 that reaches the status check gives no patterns and no error |
| Playtime.History404Rejected | scraper/src/scrapers/playtime.scraper.ts:168-171 | a 404 that the HTTP client rejects (it accepts only statuses 200 to 399) arrives as an error naming the status, and also gives no patterns and no error |
| Playtime.HistoryNoSection | scraper/src/scrapers/playtime.scraper.ts:122-131 | a page with neither history heading gives no patterns |
| Playtime.HistoryCounts | scraper/src/scrapers/playtime.scraper.ts:135-163 | a page's patterns are unique and positive and count its rows with a parsed time |
| Playtime.Find | scraper/src/scrapers/playtime.scraper.ts:150-152 | the search loop computes `IndexOf` |
| Playtime.FindOrPush | scraper/src/scrapers/playtime.scraper.ts:149-162 | the find-then-increment-or-push step computes `Tally` |
| Playtime.ScrapePlaytime | scraper/src/scrapers/playtime.scraper.ts:101-178 | the page fetch and row loop compute `History` |
| Playtime.BuildHistogram | scraper/src/scrapers/playtime.scraper.ts:135-167 | the row loop computes the tally of the rows after the header that have a parsed time |
| Playtime.Merge | scraper/src/scrapers/playtime.scraper.ts:66-74 | the upsert adds the scraped frequency to the stored bucket, or inserts it with that frequency, and touches no other bucket |
| Playtime.SumForUnique | scraper/src/scrapers/playtime.scraper.ts:65-75 | over unique buckets the amount added to a bucket is its scraped frequency |
| Playtime.MergeAllEffect | scraper/src/scrapers/playtime.scraper.ts:65-75 | the merge loop adds each bucket's scraped total to its stored frequency, removes nothing and touches no other player |
| Playtime.MergeAllNeverDecreases | scraper/src/scrapers/playtime.scraper.ts:65-75 | the merge never decreases a stored frequency or removes a bucket |
| Playtime.MergeHistory | scraper/src/scrapers/playtime.scraper.ts:62-75 | merging a player's histogram adds to each bucket the number of its rows in that bucket |
| Playtime.MergePatterns | scraper/src/scrapers/playtime.scraper.ts:65-75 | the merge loop computes `MergeAll` |
| Playtime.GuildPlayers | scraper/src/scrapers/playtime.scraper.ts:42-47 | only players that belong to an existing guild are selected, in the given name order |
| Playtime.Selected | scraper/src/scrapers/playtime.scraper.ts:42-49 | given the players table in name order, at most 100 guild players, a prefix of the guild players, none twice, and every guild player when there are at most 100 |
| Playtime.GuildPlayersDistinct | scraper/src/scrapers/playtime.scraper.ts:42-47 | a players listing without repetition selects no player twice |
| Playtime.GuildPlayersComplete | scraper/src/scrapers/playtime.scraper.ts:42-47 | every guild player of the ordered list is selected |
| Playtime.ReportedSnoc | scraper/src/scrapers/playtime.scraper.ts:58-91 | a player is reported only with a non-empty history; a failing player adds nothing and the next one proceeds |
| Playtime.ApplyPlayersSnoc | scraper/src/scrapers/playtime.scraper.ts:58-91 | the players are merged one after another, in order |
| Playtime.ApplyPlayersNeverDecreases | scraper/src/scrapers/playtime.scraper.ts:58-91 | a whole run never decreases a stored frequency |
| Playtime.Scrape | scraper/src/scrapers/playtime.scraper.ts:36-93 | succeeds with the non-empty histories of the selected players and merges exactly those into the pattern table, changing nothing else |
| Playtime.ScrapePlayers | scraper/src/scrapers/playtime.scraper.ts:57-89 | the loop reports, in order, every player whose history came back non-empty; a failed or empty one is skipped and the loop goes on; the pattern table is those reports merged in turn |
| Playtime.ScrapePlayer | scraper/src/scrapers/playtime.scraper.ts:59-81 | one player's turn adds that player's report exactly when its history is non-empty, and merges exactly that report |
| GuildMembers.LinkIndex | scraper/src/scrapers/guild-members.scraper.ts:132-139 | the first anchor whose trimmed text equals the guild name exactly, or none when no anchor matches |
| GuildMembers.LinkFrom | scraper/src/scrapers/guild-members.scraper.ts:132-139 | the anchor loop from position k on finds that first match |
| GuildMembers.GuildUrlFirst | scraper/src/scrapers/guild-members.scraper.ts:132-141 | the guild URL is the first matching anchor's `href`, when it has a non-empty one; later matches are never looked at |
| GuildMembers.GuildUrlNone | scraper/src/scrapers/guild-members.scraper.ts:132-144 | with no matching anchor there is no URL |
| GuildMembers.FindGuildUrl | scraper/src/scrapers/guild-members.scraper.ts:131-139 | the anchor loop, breaking on the first match, computes `GuildUrl` |
| GuildMembers.MemberRow | scraper/src/scrapers/guild-members.scraper.ts:162-181 | a row is kept iff it has at least two cells and a non-empty parsed name; the member is that name with the parsed vocation |
| GuildMembers.MemberRowWellFormed | scraper/src/scrapers/guild-members.scraper.ts:165-181 | a kept member's name is non-empty, trimmed and free of "(…)" groups, and its vocation is never a base vocation |
| GuildMembers.RosterNotFound | scraper/src/scrapers/guild-members.scraper.ts:121-144 | a failing guilds page is an error; a guild without a link gives an empty roster and so no writes |
| GuildMembers.RosterWellFormed | scraper/src/scrapers/guild-members.scraper.ts:159-186 | every member of a roster is well formed |
| GuildMembers.RosterFound | scraper/src/scrapers/guild-members.scraper.ts:146-188 | with a link, a 200 guild page gives exactly the kept rows after the header; any other answer is an error |
| GuildMembers.ScrapeGuildMembers | scraper/src/scrapers/guild-members.scraper.ts:111-189 | the two fetches and the row loop compute `Roster` |
| GuildMembers.GuildRows | scraper/src/scrapers/guild-members.scraper.ts:40-45 | given the guilds table in (server, name) order, every guild whose server exists comes exactly once, with its own name and its server's id and name |
| GuildMembers.JoinRows | scraper/src/scrapers/guild-members.scraper.ts:40-45 | the inner join keeps listed guilds only, each with its own name and its server's id and name |
| GuildMembers.JoinRowsComplete | scraper/src/scrapers/guild-members.scraper.ts:40-45 | every listed guild whose server exists has a row |
| GuildMembers.JoinRowsDistinct | scraper/src/scrapers/guild-members.scraper.ts:40-45 | distinct guild ids give rows with distinct ids |
| GuildMembers.UpsertMember | scraper/src/scrapers/guild-members.scraper.ts:73-82 | the upsert inserts a new player with level 1; on conflict it overwrites vocation and `guild_id` and keeps the level; no other player changes |
| GuildMembers.SnapshotRows | scraper/src/scrapers/guild-members.scraper.ts:64-70 | one snapshot row per member, in order, all with the guild's id and the same `snapshotTime` |
| GuildMembers.StoreAllRoster | scraper/src/scrapers/guild-members.scraper.ts:64-83 | a guild's loop appends exactly its snapshot rows and writes only the snapshots and players tables |
| GuildMembers.MemberKeys | scraper/src/scrapers/guild-members.scraper.ts:73-82 | the players a roster upserts: exactly its members' (name, server) keys |
| GuildMembers.StoreAllKeys | scraper/src/scrapers/guild-members.scraper.ts:73-82 | after the loop the player table holds the old players and the roster's members |
| GuildMembers.StoreAllLevels | scraper/src/scrapers/guild-members.scraper.ts:73-82 | no level changes: an existing player keeps its level and a new one has level 1 |
| GuildMembers.StoreAllUntouched | scraper/src/scrapers/guild-members.scraper.ts:73-82 | a player not in the roster is unchanged |
| GuildMembers.StoreAllLastWins | scraper/src/scrapers/guild-members.scraper.ts:73-82 | a member ends with its vocation and this guild, taken from its last row in the roster |
| GuildMembers.StoreMembers | scraper/src/scrapers/guild-members.scraper.ts:64-83 | the member loop computes `StoreAll` |
| GuildMembers.SucceededSnoc | scraper/src/scrapers/guild-members.scraper.ts:55-101 | a guild whose roster fails adds no result and does not stop the following guilds |
| GuildMembers.ApplyGuildsSnoc | scraper/src/scrapers/guild-members.scraper.ts:55-101 | the guilds are stored one after another, in order |
| GuildMembers.Scrape | scraper/src/scrapers/guild-members.scraper.ts:34-103 | succeeds with the rosters of the guilds that loaded, stored with each guild's own snapshot time; with no configured guilds, success with empty data |
| GuildMembers.ApplyGuildsFrame | scraper/src/scrapers/guild-members.scraper.ts:55-101 | the scrape only appends snapshot rows, removes no player and writes no other table |
| Scheduler.InitialDelay | scraper/src/scheduler.service.ts:128-178 | every job but playtime gets one initial run, after its own delay |
| Scheduler.Index | scraper/src/scheduler.service.ts:202-225 | each job has its own place among the five entries of the status report |
| Scheduler.InitialOrder | scraper/src/scheduler.service.ts:132-177 | the initial runs come at 2, 5, 8 and 11 s: guild members, online players, killboard, highscores, three seconds apart |
| Scheduler.SharedSchedules | scraper/src/scheduler.service.ts:43-103 | online players and killboard share the 30-second schedule, guild members and playtime the 12-hour one, and highscores has its own |
| Scheduler.SchedulerService.constructor | scraper/src/scheduler.service.ts:11-37 | five fresh scrapers with their names and default configurations, none running, no task and every lock clear |
| Scheduler.SchedulerService.SetLock | scraper/src/scheduler.service.ts:25-29 | setting one job's lock changes no other lock and no task |
| Scheduler.SchedulerService.TickBegin | scraper/src/scheduler.service.ts:44-49 | a tick runs exactly when its lock was clear, and leaves the lock set; other locks and the tasks are unchanged |
| Scheduler.SchedulerService.TickEnd | scraper/src/scheduler.service.ts:52-54 | the `finally` clears this job's lock only |
| Scheduler.SchedulerService.RunTick | scraper/src/scheduler.service.ts:132-141 | a tick (or initial run) that finds its lock set does nothing and leaves its scraper unchanged; otherwise it runs `execute` and clears the lock: a scraper already running fails with 'Scraper is already running' and keeps all its fields, and a scraper that runs returns the retry result and ends not running, with `lastRun` now, one log row appended and `nextRun` rescheduled; other locks and the tasks are unchanged |
| Scheduler.SchedulerService.OverlappingTicks | scraper/src/scheduler.service.ts:44-54 | a tick arriving while the previous one of the same job is in flight is skipped, and one after it runs |
| Scheduler.SchedulerService.Start | scraper/src/scheduler.service.ts:39-126 | every job gets an active task with its own cron expression, and no lock changes |
| Scheduler.SchedulerService.Stop | scraper/src/scheduler.service.ts:180-200 | every scheduled task is stopped, a missing one stays missing, and every lock is as it was |
| Scheduler.SchedulerService.GetStatus | scraper/src/scheduler.service.ts:202-225 | five entries, each job's lock reported as `isLocked` next to that scraper's own status |
| Scheduler.Stopped | scraper/src/scheduler.service.ts:183-197 | stopping a task keeps it present and only makes it inactive; with no task there is nothing to stop |
| Repository.SetClauses | backend/src/database/repository.ts:224-231 | one `column = $k` clause per provided field |
| Repository.Values | backend/src/database/repository.ts:224-231 | one bound value per provided field |
| Repository.ClausesNumbered | backend/src/database/repository.ts:224-231 | the i-th provided field's clause names placeholder $(from + i) and its value is the i-th parameter |
| Repository.AssignSnoc | backend/src/database/repository.ts:224-231 | pushing a field appends its clause with the next placeholder and appends its value |
| Repository.UpdateQueryBinds | backend/src/database/repository.ts:219-239 | an update binds one parameter per provided field and the id last; clause k names $k, the first clause is always `updated_at = NOW()` and the id's placeholder is the number of parameters |
| Repository.GuildAssigns | backend/src/database/repository.ts:224-231 | `updateGuild` assigns one column per provided field |
| Repository.PlayerAssigns | backend/src/database/repository.ts:329-340 | `updatePlayer` assigns one column per provided field; an explicit null guild counts as provided |
| Repository.PushAssign | backend/src/database/repository.ts:225-226 | one `push` of a clause with `paramIndex++` and its value keeps clauses, parameters and the index in step |
| Repository.UpdateGuildQuery | backend/src/database/repository.ts:219-237 | the builder loop produces exactly `UpdateQuery` of the provided name and flag, with the id last |
| Repository.UpdatePlayerQuery | backend/src/database/repository.ts:324-346 | the builder loop produces exactly `UpdateQuery` of the provided vocation, level and guild, with the id last |
| Repository.GuildAssignsCases | backend/src/database/repository.ts:224-231 | the fields are pushed in the order name, then flag |
| Repository.PlayerAssignsCases | backend/src/database/repository.ts:329-340 | the fields are pushed in the order vocation, level, guild |
| Repository.UpdateNothing | backend/src/database/repository.ts:219-237 | with no field provided the query only sets `updated_at` and binds the id to $1 |
| Repository.UpdateGuildBoth | backend/src/database/repository.ts:219-237 | with both fields: `name = $1`, `is_ally = $2`, and the id bound to $3 as the third parameter |
| Repository.ScraperLogsQuery | backend/src/database/repository.ts:656-666 | the type filter ($1) is added only for a non-empty type; the limit, 100 by default, is bound as the last parameter to $(number of parameters) |
| Repository.AllGuildsQuery | backend/src/database/repository.ts:184-194 | the server filter ($1) is added and bound only for a non-empty server id; the guilds are ordered by name |
| Repository.AllGuilds | backend/src/database/repository.ts:184-196 | `getAllGuilds`: every guild, or only the given server's when a non-empty id is given |
| Repository.GuildsWithFlag | backend/src/database/repository.ts:246-260 | `getAllyGuilds` / `getEnemyGuilds`: exactly the server's guilds with that `is_ally` value |
| Repository.AlliesAndEnemies | backend/src/database/repository.ts:184-196 | a server's allies and enemies are disjoint and together are all its guilds |
| Repository.CreateGuild | backend/src/database/repository.ts:211-217 | `createGuild` inserts the guild under a fresh id and keeps ids below the counter |
| Repository.CreateGuildUnique | backend/src/database/repository.ts:211-217 | inserting a name not taken on its server keeps names unique per server |
| Repository.UpdateGuild | backend/src/database/repository.ts:219-239 | an existing guild gets the provided fields and keeps the others and its server; an unknown id returns null and changes nothing |
| Repository.UpdateGuildUnique | backend/src/database/repository.ts:219-239 | an update whose new name is free on the guild's server keeps names unique |
| Repository.DeleteGuild | backend/src/database/repository.ts:241-244 | `deleteGuild` returns true iff a row was removed; exactly that row goes |
| Repository.DeleteGuildTwice | backend/src/database/repository.ts:241-244 | deleting again removes nothing and returns false |
| Repository.UpsertPlayer | backend/src/database/repository.ts:306-322 | keyed by (name, server): inserts or overwrites vocation, level and guild, touching no other player |
| Repository.UpsertPlayerIdempotent | backend/src/database/repository.ts:306-322 | upserting the same player twice is the same as once |
| Repository.UpsertPlayerStatus | backend/src/database/repository.ts:359-372 | keyed by player: sets both flags; online sets `last_seen` to now, offline keeps the previous one, null on first insert |
| Repository.LastSeenKept | backend/src/database/repository.ts:359-372 | once a player has been seen, `last_seen` is never cleared |
| Repository.UpsertPlaytimePattern | backend/src/database/repository.ts:548-558 | a missing bucket is created with frequency 1, an existing one is incremented by exactly 1, and no other changes |
| Repository.UpsertPlaytimeIsMerge | backend/src/database/repository.ts:548-558 | incrementing a bucket is the playtime merge of a frequency of 1 |
| Repository.UserByUsername | backend/src/database/repository.ts:574-577 | a user with that name when one exists, none otherwise |
| Repository.FirstUser | backend/src/database/repository.ts:569-577 | the search from position k on finds a row that the lookup's condition (the id, or the username) accepts, and none only when no row does |
| Repository.UserById | backend/src/database/repository.ts:569-572 | a user with that id when one exists, none otherwise |
| Repository.CreateUser | backend/src/database/repository.ts:579-585 | appends one unapproved, non-admin user under a fresh id |
| Repository.ApproveUser | backend/src/database/repository.ts:587-593 | marks exactly the rows with that id approved and returns the user, now approved and in the new table, or null when there is none |
| Repository.PendingUsers | backend/src/database/repository.ts:595-600 | exactly the unapproved users |
| Repository.ApprovedNotPending | backend/src/database/repository.ts:587-600 | an approved user is no longer pending |
| AuthMiddleware.BearerToken | backend/src/middleware/auth.middleware.ts:25-31 | a token is extracted only when the header is exactly 'Bearer', one space and a token without spaces (the split on ' ' gives exactly two parts) |
| AuthMiddleware.BearerTokenOf | backend/src/middleware/auth.middleware.ts:25-31 | every 'Bearer <token>' header with a space-free token yields that token |
| AuthMiddleware.Authenticate | backend/src/middleware/auth.middleware.ts:16-41 | a missing or empty header is 401 'No authorization header'; a malformed one is 401 'Invalid authorization format'; the request continues iff the token verifies, with its payload attached; every rejection is 401 |
| AuthMiddleware.AuthenticateBearer | backend/src/middleware/auth.middleware.ts:31-40 | a well-formed header continues iff its token verifies, and a failed verification is 401 'Invalid or expired token' |
| AuthMiddleware.RequireAdmin | backend/src/middleware/auth.middleware.ts:44-56 | no user is 401 'Authentication required', a non-admin is 403 'Admin privileges required', and only an admin continues |
| AuthMiddleware.AdminRoute | backend/src/middleware/auth.middleware.ts:16-56 | behind both middlewares a request continues iff its header carries a verifiable admin token; an authenticated non-admin gets 403 |
| AuthMiddleware.OptionalAuth | backend/src/middleware/auth.middleware.ts:59-77 | `optionalAuth` always continues |
| AuthMiddleware.OptionalAuthAgrees | backend/src/middleware/auth.middleware.ts:59-77 | it attaches exactly the user `authenticate` would, and none when `authenticate` would reject |
| AuthService.ToPublicUser | backend/src/services/auth.service.ts:134-142 | the public user has the id, name, admin flag, approval and creation time of the user |
| AuthService.ToPublicUserDropsHash | backend/src/services/auth.service.ts:134-142 | two users look the same in public exactly when they differ at most in their password hashes: the hash is dropped |
| AuthService.Register | backend/src/services/auth.service.ts:20-43 | an existing username is refused before the password is looked at; a password under six characters is refused; otherwise exactly one unapproved, non-admin user with the hashed password is added and returned; a refusal changes nothing; unique usernames and fresh ids are kept |
| AuthService.Login | backend/src/services/auth.service.ts:45-74 | 'Invalid credentials' exactly for an unknown user or a wrong password, 'Account pending approval' exactly for a right password of an unapproved user; an approved user with the right password always gets the token signed over that user and its public view, and a success is always such a user's |
| AuthService.FreshUserPending | backend/src/services/auth.service.ts:20-74 | a user who has just registered cannot log in |
| AuthService.ApproveUser | backend/src/services/auth.service.ts:76-94 | without an existing admin caller 'Unauthorized: Admin privileges required'; an unknown target 'User not found'; a refusal changes nothing; an admin approving an existing user always succeeds, the table becomes the one with that user approved, and the result is the public view of that approved row |
| AuthService.GetPendingUsers | backend/src/services/auth.service.ts:96-107 | the same admin check; then exactly the public views of the unapproved users |
| AuthService.GetUserById | backend/src/services/auth.service.ts:109-113 | the public view (`toPublicUser`) of a row with that id, or null exactly when there is none |
| AuthService.VerifyToken | backend/src/services/auth.service.ts:115-122 | the verifier's payload, or 'Invalid or expired token' when it fails |
| GuildService.CreateGuild | backend/src/services/guild.service.ts:21-40 | an unknown server is 'Server not found'; a name already taken on the server is 'Guild already exists for this server'; a refusal changes nothing; otherwise the guild is inserted under a fresh id, and names stay unique per server |
| GuildService.UpdateGuild | backend/src/services/guild.service.ts:42-57 | an unknown id is 'Guild not found' and changes nothing; otherwise the provided fields overwrite the guild's, its server stays, and the updated guild is returned |
| GuildService.UpdateGuildMayDuplicate | backend/src/services/guild.service.ts:42-57 | since no name check is made, a rename can give two guilds of one server the same name |
| GuildService.UpdateGuildKeepsValid | backend/src/services/guild.service.ts:42-57 | a rename to a name that is free on the server, or no rename, keeps names unique |
| GuildService.DeleteGuild | backend/src/services/guild.service.ts:59-73 | an unknown id is 'Guild not found' and changes nothing; otherwise exactly that guild is removed |
| GuildService.GetGuildMembers | backend/src/services/guild.service.ts:75-84 | an unknown guild is 'Guild not found'; otherwise exactly the players whose guild is this one |
| GuildService.GetGuildsByFlag | backend/src/services/guild.service.ts:86-106 | an unknown server is 'Server not found'; otherwise exactly the server's guilds whose `is_ally` is true (`getAllyGuilds`) or false (`getEnemyGuilds`) |
| GuildService.AlliesAndEnemiesPartition | backend/src/services/guild.service.ts:86-106 | a server's allies and enemies are disjoint and together are all its guilds |
| DataStore.PrependCapped | frontend/src/store/dataStore.ts:154 | `[x, ...xs].slice(0, cap)`: the new item first, then the old items in order, at most `cap` of them |
| DataStore.PrependUnderCap | frontend/src/store/dataStore.ts:154 | under the cap nothing is dropped |
| DataStore.FindIndex | frontend/src/store/dataStore.ts:163 | `findIndex`: the first session with the id, or none when there is none |
| DataStore.UpsertSession | frontend/src/store/dataStore.ts:163-170 | an existing id replaces the first matching session in place, keeping the length and every other session; a new id is put first |
| DataStore.UpsertSessionIdempotent | frontend/src/store/dataStore.ts:159-171 | after an update the session is listed, and repeating the update changes nothing |
| DataStore.RemovePlayer | frontend/src/store/dataStore.ts:141-143 | the filter keeps exactly the players with another id |
| DataStore.RemovePlayerAppend | frontend/src/store/dataStore.ts:141-143 | the filter keeps the remaining players in their order |
| DataStore.RemovePlayerAbsent | frontend/src/store/dataStore.ts:141-143 | removing an unlisted player changes nothing |
| DataStore.Store.constructor | frontend/src/store/dataStore.ts:1-54 | the store starts with no selection, empty lists and no effects |
| DataStore.Store.SelectServer | frontend/src/store/dataStore.ts:64-82 | leaves the previous server's room (when one was selected), joins the new one, selects it and starts its four reloads, deaths limited to 50; no list changes |
| DataStore.Store.HandlePlayerStatus | frontend/src/store/dataStore.ts:126-145 | offline removes every entry of the player; online never changes the list, and reloads it only for an unlisted player while a server is selected |
| DataStore.Store.HandleNewDeath | frontend/src/store/dataStore.ts:147-157 | a death of the selected server goes first and the list is cut to 50; any other death is ignored; the list never exceeds 50 |
| DataStore.Store.HandleHuntingUpdate | frontend/src/store/dataStore.ts:159-171 | the session list becomes `UpsertSession` of the old one, nothing else changes |
| DataStore.Store.HandleMemberUpdate | frontend/src/store/dataStore.ts:173-180 | an update for the selected server reloads its guilds; any other changes nothing |
| DataStore.Store.Reset | frontend/src/store/dataStore.ts:182-197 | leaves the selected server's room, clears the selection and the guild, player, hunting and death lists, and keeps `servers` |
| Format.JsRem | frontend/src/utils/format.ts:18 | JavaScript's `%`: the remainder has the sign of the dividend |
| Format.DurationParts | frontend/src/utils/format.ts:16-18 | for a non-negative duration: hours·60 + mins = minutes, 0 ≤ mins < 60, and hours is 0 exactly under an hour |
| Format.FormatDuration | frontend/src/utils/format.ts:15-25 | the text always ends in 'm', and has an hours part (an 'h') exactly when the whole hours are not zero |
| Format.FormatDurationSplits | frontend/src/utils/format.ts:16-25 | a duration under an hour prints 'Mm'; otherwise 'Hh Mm' with the whole hours and the leftover minutes |
| Format.FormatDurationNegative | frontend/src/utils/format.ts:16-18 | -30 minutes splits into -1 hours and -30 minutes (the floor of -0.5 is -1 and `%` keeps the sign) |
| Format.VocationColor | frontend/src/utils/format.ts:27-36 | a case-insensitive substring test with priority knight (red), paladin (green), druid (blue), sorcerer (purple), and gray for anything else |
| Format.NotContains | frontend/src/utils/format.ts:28-33 | a text without the first letter of a needle does not contain it |
| Format.KnightsRed | frontend/src/utils/format.ts:27-30 | 'Knight' and 'Elite Knight' are red |
| Format.PaladinsGreen | frontend/src/utils/format.ts:27-31 | 'Paladin' and 'Royal Paladin' are green |
| Format.DruidsBlue | frontend/src/utils/format.ts:27-32 | 'Druid' and 'Elder Druid' are blue |
| Format.SorcererPurple | frontend/src/utils/format.ts:27-33 | 'Sorcerer' is purple |
| Format.MasterSorcererPurple | frontend/src/utils/format.ts:27-33 | 'Master Sorcerer' is purple |
| Format.NoneGray | frontend/src/utils/format.ts:27-35 | 'None' is gray |
| Format.VocationColorsByBase | frontend/src/utils/format.ts:27-36 | every vocation's name gets its base vocation's colour |
| Format.ClassificationHue | frontend/src/utils/format.ts:38-58 | green exactly for 'ally', red exactly for 'enemy', yellow for every other string |
| Format.ClassificationColor | frontend/src/utils/format.ts:38-47 | the text colour is green iff 'ally', red iff 'enemy', yellow iff anything else, as its hue says |
| Format.ClassificationBg | frontend/src/utils/format.ts:49-58 | the background is green iff 'ally', red iff 'enemy', yellow iff anything else, as its hue says |
| Format.ClassificationColorsAgree | frontend/src/utils/format.ts:38-58 | two classifications share a text colour exactly when they share a background, exactly when they share a hue |
| Format.StatusHue | frontend/src/utils/format.ts:60-66 | green exactly when online, gray otherwise |
| Format.StatusColor | frontend/src/utils/format.ts:60-62 | the text colour of the status hue: green exactly when online, gray otherwise |
| Format.StatusBadge | frontend/src/utils/format.ts:64-66 | the badge of the same status hue, so badge and text colour always agree |

## Left out

- HTML parsing: a page is already a table of trimmed cell strings. The
  cheerio selectors that produce it are not part of this model.
- Date handling: `parseRubinotTime`, `parseDate`, `getHours`, `getDay` and
  SQL `NOW()` are parameters or plain `nat` inputs (`now`,
  `snapshotTime`). Time zones are not modelled. One highscores cycle uses
  a single `now` for all of its entries (see `Highscores.ApplyEntries`
  below).
- Timers and randomness: `delay`, `getRandomDelay`, `setTimeout` and the
  cron schedule's wall clock are left out. The backoff delays that would
  be slept are returned as a sequence, and a scheduler tick is an event
  (`TickBegin`, then `TickEnd`).
- Floating point: `xpPerMinute` and the frontend's `formatXp` and
  `formatXpPerHour` are left out. Only the integer "elapsed time > 0"
  condition is kept.
- `parseInt` is modelled as exact. The loss of precision beyond 2^53 is
  not modelled, because levels stay far below it.
- ParserUtils.ParseInt: reads decimal digits only. JavaScript's `parseInt`
  without a radix reads a "0x" or "0X" prefix as hexadecimal
  (`parseInt("0x1A")` is 26, the model gives 0), so a rank cell with such
  a prefix would get a different rank.
- The network: HTTP requests, cookies, redirects and `encodeURIComponent`
  are not modelled. A fetch is a function parameter that returns a page
  or an error.
- Database failures: SQL errors and the `catch` branches that report them
  are left out. With failures gone, "Failed to update guild" and "Failed
  to delete guild" cannot occur, because the row was found just before.
- `ORDER BY` clauses: listings are sets. Where order matters (the playtime
  scraper's players by name, the guild scraper's guilds by server and name,
  the latest snapshot, the latest active session), the ordered rows are an
  input listing each row of the table once, or the most recently appended
  row.
- Highscores.LastActive: the session extended is the last active one
  appended for the player, which matches the source's
  `ORDER BY start_time DESC LIMIT 1` only while session start times do not
  decrease.
- bcrypt and jsonwebtoken are parameters. The 12 salt rounds, the 24-hour
  expiry and the warning about the default secret are outside the model.
- Concurrency: tasks do not interleave. Each lock is a field that a tick
  tests, sets and clears in sequence, and concurrent database writes are
  not modelled.
- Highscores.ChangeOf: the previous snapshot is the last one appended for
  the player, which matches the source's
  `ORDER BY snapshot_time DESC` only while snapshot times do not decrease.
- DataStore.Store: the `load*` reloads and the `isLoading` flags are
  recorded as effects. What a reload later writes into the lists is not
  modelled.
- AuthService.Register: the password length counts characters. JavaScript
  counts UTF-16 code units, which differ outside the Basic Multilingual
  Plane.
- Scraper getters `isEnabled`, `setEnabled`, `getInterval`, `getLastRun` and `getNextRun`
  are left out. They read or set one field, and `getStatus` covers them.
- Passthroughs: `getAllGuilds`, `getGuildById` and
  `getGuildByNameAndServer` in the guild service forward to the repository
  query builders, and only those builders are modelled.
- Outside the core: the Discord bot, the Express routes, the WebSocket
  server and client, the React components, `authStore`, the logger's
  database write (only its null coercions are modelled) and the process
  entry points are not part of this model.
- Highscores.ApplyEntries: every entry of one cycle is applied at the
  same `now`, whereas the source reads the clock again for each entry. A
  player listed twice in one cycle (ranks shifting between page fetches)
  with more experience the second time has its session extended by the
  source, since a little time has passed. The model sees no elapsed time
  and changes neither the status nor the sessions.
- JsString.ToLower: only the ASCII letters A-Z are lowered. JavaScript
  `toLowerCase` also lowers other letters: the Kelvin sign U+212A becomes
  "k", and some letters change length ("İ" becomes two code units). So
  `Format.VocationColor` can differ from `getVocationColor` on non-ASCII
  text: "\u212ANIGHT" is red in the source and gray in the model.
- Database schema: the schema is not part of this model, so its column
  defaults are assumed. A new status row starts not online, not hunting
  and with no last-seen time. A new hunting session starts active with no
  end time. A new user starts neither admin nor approved.
- Repository.DeleteGuild: removes only the guild row, and players keep
  their `guild_id`, because the foreign key's behaviour is not modelled.
  An `ON DELETE SET NULL` would clear those players' guild. An
  `ON DELETE RESTRICT` would make the delete fail while the guild has
  members.
- Format.FormatDuration: its exact text is stated only for durations of
  zero or more (`FormatDurationSplits`). For negative minutes only the split into
  floor and JavaScript remainder is stated (`DurationParts`,
  `FormatDurationNegative`).
