# tg_forward core, modelled in Dafny

tg_forward is a desktop tool that forwards messages from Telegram chats. Each stored forwarding
rule sends a message to another Telegram group or posts it as a tweet. This project models the
part of the tool that accepts a message and decides what to do with it:

- **The forward engine** (`core/forward.py`):
  - which rules are active and which rules see a message;
  - the rule filter (keywords and a regex);
  - the per-rule pipeline: filter, optional delay, dispatch, statistics, forward log;
  - tweet text composition;
  - the counters and rolling delay window kept in the settings store;
  - the two bounded FIFO logs;
  - the `running` flag of `start`/`stop`.
- **The Twitter client registry** (`core/twitter.py`): the `clients` map, active-client selection and removal, and the shaping of a tweet (280-character truncation, at most four media).
- **The settings layer** (`config/settings.py`): the join from stored rules and groups to the rule view the engine consumes, the renaming of account fields, and the two group rows written when a rule is saved.
- **The database** (`models/database.py`):
  - the singleton manager;
  - its account, group, rule and log tables, held in memory in rowid order;
  - the SQL text and parameter list built by `get_forward_logs` and `get_statistics`.
- **The utilities** (`utils/common/tools.py`, `utils/error/error_handler.py`): `find_value` over a JSON tree, `adjust_decimal_places` as decimal quantization, the error codes, and the `retry` loop and exact-type dispatch of `error_handler`.

Modules, one per file:

| Module | What is in it |
|---|---|
| `Wrappers` | `Option` (Python's `None`) and `Result` (a raised exception) |
| `Strings` | substring search, `join`, `str(int)` and its parse-back, `?` counts |
| `Seqs` | list comprehensions as `Filter`, `s[-n:]` as `Newest`, and the sliding-window lemmas |
| `Tools` | `find_value` and `adjust_decimal_places` |
| `ErrorHandling` | `ErrorCode`, `BaseError`, `retry` and the `error_handler` dispatch |
| `Twitter` | `TwitterManager` as a class over a `clients` map and an `activeClient` field |
| `RuleData` | the JSON columns of a rule (`filters`, `options`, `twitter_config`) |
| `Database` | `DatabaseManager` (tables as `seq` fields) and the singleton registry |
| `Config` | the `Settings` class and the rule-view join |
| `Stats` | the key-value store, and the specification functions of `update_stats`, `log_forward` and `log_error` |
| `MessageFilters` | `check_filters`, the text source, the tweet template and the log excerpt |
| `Forward` | `ForwardEngine` as a class, with the pipeline's specification functions |

The code is mixed, so the model is mixed:

- Stateful code is a Dafny `class` with `modifies` clauses. This covers `TwitterManager`, `DatabaseManager`, `Settings` and `ForwardEngine`.
  - Loops (`retry`, `send_tweet`'s upload loop, `start`, `handle_message`, `get_forward_rules`, the query builders) are `while` loops. Each carries the invariants that tie it to a specification function.
  - The store writes of `update_stats`, `log_forward` and `log_error` are methods on the engine's `store` field, proved equal to the specification functions in `Stats`.
- Pure code is datatypes and functions with lemmas. This covers `check_filters`, template filling, `_row_to_rule`, `find_value` and quantization.

A message is processed against an `Env` value. It holds the outside world as oracles: the regex engine, the Telegram send, the media download, Twitter's upload and post, and the clock readings.

Three behaviours of the code that a reader might not expect are kept as the code has them:

- `avg_delay` is the mean of the delay window *before* it is trimmed, so 101 samples can count.
- A keyword list that is present and empty lets every message through.
- A missing `delay` key is an error logged under the rule's name, not a skipped delay.

## Model

| member | source | states |
|---|---|---|
| MessageFilters.SourceText | core/forward.py:127 | the text judged is `text` when non-empty, else a non-empty `caption`, else the empty string |
| MessageFilters.AnyKeywordIn | core/forward.py:130-133 | true iff some keyword of the list is a substring of the text |
| MessageFilters.CheckFilters | core/forward.py:124-143 | the message passes iff both filter keys are present, the keyword list is empty or one keyword occurs in the text, and the regex is empty or `re.search` finds it; a missing key or a regex that does not compile fails the check |
| MessageFilters.EmptyFiltersPassEverything | core/forward.py:130-139 | with no keywords and no regex every message passes |
| MessageFilters.KeywordInTextPasses | core/forward.py:130-133 | one keyword that occurs in the text is enough when there is no regex |
| MessageFilters.FillKeepsPlainPrefix | core/forward.py:180-184 | template text without a brace is copied into the tweet unchanged |
| MessageFilters.PlainTemplateUnchanged | core/forward.py:180-184 | a template without fields becomes the tweet text as written |
| MessageFilters.FieldsAreSubstituted | core/forward.py:180-184 | each `{text}` becomes the message text and each `{link}` becomes the chat link |
| MessageFilters.TelegramLink | core/forward.py:183 | the link is `https://t.me/` followed by the chat id, which parses back to that id |
| MessageFilters.ComposeTweet | core/forward.py:177-188 | the tweet text fails exactly when the config or its `template` or its `hashtags` key is missing; otherwise it is the template filled with the source text and the chat link, or the raw source text when the template is empty, followed by a blank line and the hashtags when they are non-empty |
| MessageFilters.TemplateCarriesTextAndLink | core/forward.py:180-184 | the template `{text} {link}` gives the message text, a space, then the chat link |
| MessageFilters.FillTextSpaceLink | core/forward.py:181-184 | filling `{text} {link}` yields text, space, link |
| MessageFilters.HashtagsEndTheTweet | core/forward.py:187-188 | non-empty hashtags end the tweet after a blank line |
| MessageFilters.Excerpt | core/forward.py:252 | the logged excerpt is a prefix of the text of at most 100 characters, exactly 100 when the text is longer, and empty when there is no text |
| Forward.Matching | core/forward.py:79-82 | the rules selected are exactly those whose source id is `str(chat_id)`, taken from the loaded rules |
| Forward.UnwatchedChatMatchesNothing | core/forward.py:79-88 | a chat no rule watches selects no rule |
| Forward.RoutingIsByExactChat | core/forward.py:81 | one rule is never selected by two different chats |
| Forward.TelegramRequest | core/forward.py:145-167 | the Telegram call goes to the parsed target id, sends a file with the text as caption iff media forwarding is on and the message has media, and sends the text otherwise; a target id that is not an int, or a missing `media_forward` key, is a failed forward |
| Forward.TweetMedia | core/forward.py:191-195 | media is fetched only when media forwarding is on and the message has media; at most one non-empty downloaded path is kept |
| Forward.TweetCarriesTheComposedText | core/forward.py:169-208 | a successful tweet was sent through the rule's account with the composed, shaped text; the tweet carries media iff a path was downloaded; every downloaded path is cleaned up after the send |
| Forward.ForwardEntryOf | core/forward.py:248-255 | the log entry names the rule, the source title and `target_type: title`, has status `success` iff the forward succeeded, and keeps a prefix of at most 100 characters of the text |
| Forward.Outcome | core/forward.py:94-122 | a rule is filtered out iff the filter fails; it stops on the missing-delay error iff it passed and has no `delay` key; otherwise it is forwarded |
| Forward.SleepOf | core/forward.py:102-103 | at most one sleep per rule |
| Forward.SleepIsTheDelay | core/forward.py:102-103 | a rule sleeps iff it is dispatched with the delay enabled, and then for the configured number of seconds |
| Forward.FilteredOutChangesNothing | core/forward.py:98-99 | a message the filter rejects changes no counter and no log, and causes no sleep |
| Forward.MissingDelayIsLoggedUnderTheRule | core/forward.py:120-122 | the exception is appended to the error log under the rule's name, and the total counter and forward log are unchanged |
| Forward.ForwardIsCountedAndLogged | core/forward.py:109-118 | a dispatched message adds one to the total, one to the success count iff it succeeded, and ends the forward log with its entry |
| Forward.LogForwardKeepsCounters | core/forward.py:245-267 | logging a forward leaves the message counters alone |
| Forward.Outcomes | core/forward.py:87-88 | one outcome per matching rule, each rule judged on its own |
| Forward.SleepsAllStep | core/forward.py:87-88 | the sleeps of the first i+1 rules are those of the first i followed by rule i's |
| Forward.ProcessAllStep | core/forward.py:87-88 | processing the first i+1 rules is processing the first i and then rule i, in list order |
| Forward.ForwardedAreTheDispatched | core/forward.py:87-122 | among the matching rules, the forwarded ones are exactly those that pass their filter and have a delay setting |
| Forward.TotalCountsEachForward | core/forward.py:87-122 | after the fan-out the total counter has grown by the number of forwarded rules |
| Forward.ForwardCountIsFilterLength | core/forward.py:87-88 | counting forwards one by one equals the length of the forwarded sub-list |
| Forward.TotalCountsEachStep | core/forward.py:87-122 | the fan-out adds the per-rule forward counts to the total |
| Forward.ProcessAllKeepsTypes | core/forward.py:87-122 | a well-typed store stays well-typed through the fan-out, so no later rule hits a TypeError |
| Forward.ProcessRuleKeepsTypes | core/forward.py:94-122 | one rule keeps the store well-typed |
| Forward.ProcessRuleCountsOnce | core/forward.py:94-122 | one rule adds one to the total iff it was forwarded |
| Forward.ForwardLogGetsEachForward | core/forward.py:87-122 | after the fan-out the forward log is the newest 1000 of the old log followed by the entries of the forwarded rules, in rule order |
| Forward.ProcessRuleLogsOnce | core/forward.py:115-118 | a forwarded rule appends exactly one entry to the forward log, trimmed to 1000, and any other outcome leaves it alone |
| Forward.ActiveViewsAreTheEnabledRules | core/forward.py:29 | dropping disabled views leaves the views of exactly the enabled rules, in stored order |
| Forward.SourceChats | core/forward.py:43-46 | the subscribed chats are exactly the union of the rules' source ids |
| Forward.Handlers | core/forward.py:48-56 | one handler per Telegram client, each subscribed to the source chats |
| Forward.ForwardEngine.constructor | core/forward.py:16-22 | the engine starts not running, with no sleeps or handlers, and holds the enabled rule views |
| Forward.ForwardEngine.LoadRules | core/forward.py:24-32 | the rules become the views not marked disabled, which are the views of the enabled rules |
| Forward.ForwardEngine.Start | core/forward.py:34-60 | a no-op when already running; otherwise it is running iff every client's handler registers; it connects each client and subscribes it to the source chats; on the first failed registration it resets `running` and keeps the handlers registered before it, and the connected clients are the old ones plus those up to and including the failing one whose `connect` succeeded |
| Forward.ForwardEngine.Stop | core/forward.py:62-73 | a no-op when not running; otherwise running becomes false and every client is disconnected |
| Forward.ForwardEngine.UpdateStats | core/forward.py:210-243 | the store becomes the update_stats specification of the old store |
| Forward.ForwardEngine.LogForward | core/forward.py:245-267 | the store becomes the log_forward specification of the old store |
| Forward.ForwardEngine.LogError | core/forward.py:269-289 | the store becomes the log_error specification of the old store |
| Forward.ForwardEngine.ForwardToTwitter | core/forward.py:169-208 | the result and cleaned paths are those of the tweet specification; the rule's account becomes active when it is registered, and otherwise the active client is unchanged |
| Forward.ForwardEngine.ProcessRule | core/forward.py:94-122 | the store and the sleeps log change exactly as the rule's outcome prescribes; the rule's Twitter account becomes the active client iff the rule is dispatched to Twitter and the account is registered, and otherwise the active client is unchanged |
| Forward.ForwardEngine.HandleMessage | core/forward.py:75-92 | the matching rules are processed one after another in rule order, with their sleeps in that order; the active client afterwards is that of the last rule dispatched to a registered Twitter account, or the old one when there is none |
| Forward.ForwardEngine.ProcessEach | core/forward.py:87-88 | the loop over the matching rules equals the fold of the per-rule specification, for the store, the sleeps and the active client |
| Forward.NoneSelectedKeepsActive | core/forward.py:87-88 | when no rule is dispatched to a registered Twitter account, the active client is unchanged |
| Forward.LastSelectedIsActive | core/forward.py:87-88 | the active client after the fan-out is the client of the last rule dispatched to a registered Twitter account |
| Forward.ForwardToTelegram | core/forward.py:145-167 | a forward succeeds only for an int target id and a present `media_forward`; it then succeeds iff the Telegram call succeeds: `send_file` with the text as caption when media forwarding is on and the message has media, `send_message` otherwise |
| Forward.TwitterSpec | core/forward.py:169-208 | no tweet is attempted for an unregistered account, a missing tweet template or a missing `media_forward`; success is the result of the post that was made, and there is no success without one; at most one downloaded path is cleaned up |
| Forward.ProcessRuleSpec | core/forward.py:94-122 | a filtered-out rule leaves the store unchanged; only a forwarded rule touches the forward log and the total; only a missing delay touches the error log |
| Stats.PathIsInjective | core/forward.py:211-263 | distinct counters and logs have distinct store paths |
| Stats.PathShape | core/forward.py:214-263 | each key's store path has its section prefix and carries the day or rule name |
| Stats.NextRuleStats | core/forward.py:227-238 | the rule's total and today grow by one, success grows iff the forward succeeded, and the window is the newest 100 samples after adding this one; the success rate is success / total * 100 and the average delay is the mean of the old window plus the new sample |
| Stats.SuccessRateIsAPercentage | core/forward.py:232 | the success rate lies in [0, 100] |
| Stats.DelayWindowIsBounded | core/forward.py:235-238 | the window is non-empty, at most 100 long, ends with the new sample, and is a plain append while it has room |
| Stats.AverageIncludesTheTrimmedSample | core/forward.py:235-238 | the average can include the sample the window drops: a window of zeros can have a non-zero average |
| Stats.UpdateStatsSpec | core/forward.py:210-243 | a store whose total is not an int is left unchanged; only the total, success, day and rule keys may be added; every other key and both logs keep their values |
| Stats.LogForwardSpec | core/forward.py:245-267 | a readable forward log becomes the newest 1000 of old plus the entry; an unreadable one leaves the store unchanged; no other key changes |
| Stats.LogErrorSpec | core/forward.py:269-289 | a readable error log becomes the newest 500 of old plus the entry; an unreadable one leaves the store unchanged; no other key changes |
| Stats.UpdateStatsCounts | core/forward.py:214-232 | total grows by one, total_success by one iff success, the day's count by one, and the rule's statistics advance |
| Stats.UpdateStatsUnfolds | core/forward.py:214-240 | on a well-typed store, update_stats is the sequence of writes total, success, daily, rule |
| Stats.CountersAfterWrites | core/forward.py:214-224 | each counter write leaves the others readable and advanced once |
| Stats.UpdateStatsFrame | core/forward.py:210-243 | update_stats adds only its own keys, and every other key keeps its value |
| Stats.UpdateStatsKeepsTypes | core/forward.py:210-243 | update_stats keeps the store well-typed for any later day and rule |
| Stats.UpdateStatsCountsEveryMessage | core/forward.py:214-216 | any store with an integer total gets total + 1 |
| Stats.UpdateStatsLeavesLogs | core/forward.py:210-243 | update_stats leaves both logs unchanged |
| Stats.UpdateStatsStopsAtBadTotal | core/forward.py:214-243 | when the stored total is not an int, the TypeError is swallowed and nothing is written |
| Stats.ForwardLogIsBounded | core/forward.py:257-264 | the forward log ends with the new entry, is at most 1000 long and is the newest 1000 of old plus new; no other key changes |
| Stats.ErrorLogIsBounded | core/forward.py:279-286 | the error log ends with the new entry, is at most 500 long and is the newest 500 of old plus new; no other key changes |
| Stats.ForwardLogKeepsNewest | core/forward.py:257-264 | trimming after every append keeps the newest 1000 of the whole history, in insertion order |
| Stats.LogsKeepTheTotal | core/forward.py:245-289 | the logs do not touch the total counter |
| Stats.LogsKeepStatsTypes | core/forward.py:245-289 | logging keeps the counters well-typed |
| Twitter.ApiClient.constructor | core/twitter.py:37-42 | the client holds the four credentials it was built from |
| Twitter.ShapeText | core/twitter.py:66-67 | text of at most 280 characters is unchanged; longer text becomes its first 277 characters plus `...`, exactly 280 characters |
| Twitter.UploadAll | core/twitter.py:69-74 | on success one media id per path, in order, each from that path's upload; failure means some upload failed |
| Twitter.UploadStopsAtFailure | core/twitter.py:71-74 | one failing upload fails the whole tweet |
| Twitter.MediaCap | core/twitter.py:71-74 | at most the first four paths are uploaded, in order |
| Twitter.TwitterManager.constructor | core/twitter.py:15-17 | no clients and no active client |
| Twitter.TwitterManager.AddClient | core/twitter.py:32-50 | on verified credentials the new client is stored under the username; otherwise the map is unchanged and the error is returned; the active client never changes |
| Twitter.TwitterManager.LoadAccounts | core/twitter.py:20-30 | it succeeds iff every account's credentials verify, and then every account is loaded; on failure there is a first account whose credentials do not verify, and exactly the accounts before it are loaded; a loaded account's username maps to a client holding the credentials of the last account with that name, and every other name keeps its client; the active client is unchanged |
| Twitter.LoadOneMore | core/twitter.py:22-30 | adding one more verified account extends the loaded prefix by one |
| Twitter.NamesAreUsernames | core/twitter.py:22-30 | the loaded names are exactly the usernames of the accounts loaded so far |
| Twitter.TwitterManager.SetActiveClient | core/twitter.py:52-57 | true iff the username is registered, and then that client is active; otherwise the active client is unchanged |
| Twitter.TwitterManager.SendTweet | core/twitter.py:59-89 | with no active client it fails like ValueError; otherwise it posts the shaped text with the ids of the first four uploads, or text only when there are none, and returns the post's result, or false when an upload fails |
| Twitter.TwitterManager.RemoveClient | core/twitter.py:138-143 | only that username leaves the map; the active client is cleared iff it was that client |
| Config.TelegramView | config/settings.py:37-42 | a Telegram account is shown with `username` as `phone` and its api id and hash |
| Config.TwitterView | config/settings.py:54-61 | a Twitter account is shown with `api_id` as `api_key`, `api_hash` as `api_secret`, and its tokens |
| Config.TelegramViewsAppend | config/settings.py:35-42 | a new account adds its view at the end iff it is a Telegram account |
| Config.TwitterViewsAppend | config/settings.py:52-61 | a new account adds its view at the end iff it is a Twitter account |
| Config.TelegramViewsAreRenamedAccounts | config/settings.py:35-42 | the Telegram views are the renamed Telegram accounts, one for one, in order |
| Config.TwitterViewsAreRenamedAccounts | config/settings.py:52-61 | the Twitter views are the renamed Twitter accounts, one for one, in order |
| Config.TelegramViewsOfTelegramAccounts | config/settings.py:35-42 | a list of Telegram accounts has one view per account, in order |
| Config.TwitterViewsOfTwitterAccounts | config/settings.py:52-61 | a list of Twitter accounts has one view per account, in order |
| Config.Settings.GetTelegramAccounts | config/settings.py:35-42 | one view per stored Telegram account, in stored order |
| Config.Settings.GetTwitterAccounts | config/settings.py:52-61 | one view per stored Twitter account, in stored order |
| Config.TargetGroupType | config/settings.py:72-78 | the target group is `group` iff the target type is `Telegram群组`, otherwise `twitter` |
| Config.StatusText | config/settings.py:125-130 | the logged status is `success` iff the forward succeeded and `failed` otherwise |
| Config.ViewOf | config/settings.py:91-114 | a rule has a view iff both its groups resolve by id; the view carries the groups' external ids and titles, the rule's settings, and `disabled` iff not enabled |
| Config.RuleViewsAreTheResolvingRules | config/settings.py:89-115 | one view per stored rule whose groups resolve, in stored order |
| Config.Settings.constructor | config/settings.py:24-29 | the settings hold the singleton database, created at the default path only if none exists, and always a well-formed database |
| Config.Settings.SaveTelegramAccount | config/settings.py:31-33 | the Telegram accounts grow by exactly the new view; the Twitter accounts are unchanged |
| Config.Settings.SaveTwitterAccount | config/settings.py:44-50 | the Twitter accounts grow by exactly the new view; the Telegram accounts are unchanged |
| Config.Settings.SaveForwardRule | config/settings.py:63-87 | a `source` group and a `target` group of the chosen type are appended, then a rule pointing at them; reading the rule back gives the view of what was saved |
| Config.Settings.GetForwardRules | config/settings.py:89-115 | the loop builds one view per stored rule whose groups resolve, in stored order |
| Config.Settings.LogForward | config/settings.py:122-130 | exactly one log row with status `success`/`failed` is appended |
| Config.Settings.GetStatisticsQuery | config/settings.py:117-120 | it is the statistics query over the date range, without a rule filter |
| Config.Settings.GetForwardLogsQuery | config/settings.py:132-140 | it is the forward-log query with the same filters |
| Config.TypedViews | config/settings.py:35-61 | a saved account extends the typed account list of its own kind only |
| Config.TelegramTyped | config/settings.py:35-42 | a saved account extends the Telegram account views iff it is one |
| Config.TwitterTyped | config/settings.py:52-61 | a saved account extends the Twitter account views iff it is one |
| Config.SavedRuleView | config/settings.py:63-115 | a rule saved with resolving groups reads back as the view of its input |
| Config.SavedGroupsResolve | config/settings.py:65-80 | the two groups just saved are the ones the new ids resolve to |
| Config.FreshIdSkipsPrefix | models/database.py:506-514 | an id above every older row resolves only among the newer rows |
| Database.RowToRule | models/database.py:380-393 | every column is carried over and `is_enabled` is true iff the stored flag is non-zero |
| Database.SavedRuleReadsBack | models/database.py:233-247 | filters and options read back equal, the rule is enabled, and a falsy twitter config reads back as None |
| Database.BuildFilteredSelect | models/database.py:287-311 | conditions are added in the order rule, start, end, each only when truthy; WHERE appears iff there is one, joined by AND; the query ends with the ORDER BY; `?` count equals the number of parameters |
| Database.PlaceholdersMatchParams | models/database.py:295-311 | the query has as many `?` as parameters |
| Database.ConditionsHaveOnePlaceholder | models/database.py:295-304 | each condition carries exactly one `?` |
| Database.WherePlaceholders | models/database.py:306-308 | the WHERE clause has one `?` per condition |
| Database.JoinOfClauses | models/database.py:306-311 | the query is the SELECT, then ` WHERE ` and the conditions joined by ` AND ` iff there are any, then the ORDER BY |
| Database.DatabaseManager.constructor | models/database.py:70-74 | a fresh database at the given path with empty tables |
| Database.DatabaseManager.SaveTelegramAccount | models/database.py:160-169 | appends one account tagged `telegram` with the next id |
| Database.DatabaseManager.SaveTwitterAccount | models/database.py:171-183 | appends one account tagged `twitter` with the next id and its tokens |
| Database.DatabaseManager.GetAccounts | models/database.py:185-195 | exactly the accounts of the given type, or all when the type is falsy |
| Database.DatabaseManager.DeleteAccount | models/database.py:197-200 | removes exactly the rows with that id |
| Database.DatabaseManager.SaveGroup | models/database.py:203-213 | appends one group with the next id |
| Database.DatabaseManager.GetGroups | models/database.py:215-225 | exactly the groups of the given role, or all when the role is falsy |
| Database.DatabaseManager.DeleteGroup | models/database.py:227-230 | removes exactly the rows with that id |
| Database.DatabaseManager.GetGroupById | models/database.py:506-514 | the group with that id, or None iff there is none |
| Database.DatabaseManager.SaveRule | models/database.py:233-247 | appends one enabled rule row with the next id; the result is that row read back |
| Database.DatabaseManager.GetRules | models/database.py:249-258 | `get_rules(False)` is every stored rule, read back, in rowid order; `get_rules(True)` is exactly the enabled ones among them, order preserved |
| Database.DatabaseManager.UpdateRuleStatus | models/database.py:260-267 | only the rows with that id change, and only in `is_enabled` and `updated_at` |
| Database.DatabaseManager.DeleteRule | models/database.py:269-272 | removes exactly the rows with that id |
| Database.DatabaseManager.GetRuleByName | models/database.py:496-504 | the first rule with that name, or None iff there is none |
| Database.DatabaseManager.GetRuleById | models/database.py:526-534 | a rule with that id, or None iff there is none |
| Database.DatabaseManager.AddForwardLog | models/database.py:275-285 | appends one log row with the next id |
| Database.DatabaseManager.GetForwardLogsQuery | models/database.py:287-311 | the filtered SELECT over `forward_logs` ordered by `created_at DESC`, with matching placeholders and parameters |
| Database.DatabaseManager.GetStatisticsQuery | models/database.py:329-352 | the filtered SELECT over `statistics` ordered by `date DESC`, with matching placeholders and parameters |
| Database.DatabaseSingleton.constructor | models/database.py:61 | no instance yet |
| Database.DatabaseSingleton.Construct | models/database.py:64-74 | every construction returns the same instance; only the first creates and initializes it, at the given path or the default one; the instance returned is always a well-formed database |
| Database.AccountsOfType | models/database.py:185-195 | only accounts of the type, each of them, and all accounts for a falsy type |
| Database.GroupWithId | models/database.py:506-514 | a group with that id, or None iff there is none |
| Database.FirstRuleNamed | models/database.py:496-504 | the first row with that name, read back, or None iff there is none |
| Database.FirstRuleWithId | models/database.py:526-534 | a row with that id, read back, or None iff there is none |
| Database.AllRulesInOrder | models/database.py:249-258 | `get_rules(False)` reads back every row, in order |
| Database.EnabledRulesAreTheEnabledOnes | models/database.py:249-258 | `get_rules(True)` is exactly the enabled rules of `get_rules(False)` |
| Tools.Lookup | utils/common/tools.py:24-26 | the value stored under the key in the dict |
| Tools.FindValue | utils/common/tools.py:21-39 | a direct key is returned without recursion; otherwise dict values, then list items, are searched in order; scalars give None; a non-None result is the value of some occurrence of the key |
| Tools.FindInValues | utils/common/tools.py:28-31 | the first non-None result among the dict's values, in order, or None iff there is none |
| Tools.FindInItems | utils/common/tools.py:32-37 | the first non-None result among the list's items, in order, or None iff there is none |
| Tools.NoOccurrenceMeansNone | utils/common/tools.py:21-39 | a tree with no non-None occurrence of the key gives None |
| Tools.RoundHalfUp | utils/common/tools.py:10-19 | the rounded value is within half a unit of the input, and a tie rounds away from zero |
| Tools.Quantize | utils/common/tools.py:18-19 | the result has the requested number of fractional digits and is rounded half-up |
| Tools.AdjustDecimalPlaces | utils/common/tools.py:8-19 | the result has `abs(exponent(reference))` fractional digits and is within half a unit of the value |
| ErrorHandling.CodesAreDistinct | utils/error/error_handler.py:9-24 | distinct error codes have distinct numbers |
| ErrorHandling.NewBaseError | utils/error/error_handler.py:26-46 | the error keeps its class and code; its message is the given one, or the code's message when none is given |
| ErrorHandling.Retry | utils/error/error_handler.py:48-67 | at most `max_retries` calls; the first success or uncaught exception ends it; after all tries are caught it raises the last one; the waits are `delay*(attempt+1)`, only between attempts |
| ErrorHandling.HandleError | utils/error/error_handler.py:108-124 | a handler is invoked iff the exception's exact class is a key mapped to a callable; otherwise the exception is logged and re-raised |
| ErrorHandling.ErrorHandlerWrapper | utils/error/error_handler.py:81-127 | a returned value passes through; a raised exception goes to the dispatch |
| ErrorHandling.SubclassIsNotMatched | utils/error/error_handler.py:108-124 | a `NetworkError` is not handled by a `BaseError` handler, though it is a subclass |
| Strings.Contains | core/forward.py:133 | Python's `in` on strings: true iff the needle occurs at some position |
| Strings.IntToStringRoundTrip | core/forward.py:81 | `str` of an int parses back to that int |
| Strings.IntToStringInjective | core/forward.py:81 | two chat ids print the same iff they are equal |
| Seqs.Filter | core/forward.py:29 | a comprehension keeps exactly the elements that satisfy the condition |
| Seqs.FilterKeepsIncreasing | models/database.py:197-200 | deleting rows keeps the ids strictly increasing |
| Seqs.Newest | core/forward.py:257-264 | `s[-cap:]` is the newest `cap` elements, or all when there are fewer |
| Seqs.NewestKeepsLast | core/forward.py:257-264 | trimming after an append keeps the appended element last |
| Seqs.AppendEachTrimmedIsNewest | core/forward.py:257-264 | trimming after every append equals trimming the whole history once |
| Seqs.NewestOfNewest | core/forward.py:257-264 | trimming before appending does not change the trimmed result |

## Left out

- Telegram (`core/telegram.py`) is not part of this model. Sending and downloading are `Env` oracles. Connecting and registering a client are oracle parameters of `Start`. Sign-in and dialogs are not modelled.
- Forward.ForwardEngine.Start: a failed `start_client` is a boolean from the `connect` oracle and does not stop the start. Only a failed handler registration is an exception; it resets `running`.
- Forward.ForwardEngine.Stop: every client is taken to be disconnected; `disconnect` is not modelled.
- Forward.ForwardEngine.HandleMessage: the `except` branch of `handle_message` cannot be reached in the model, because `process_rule` catches everything. So `log_error(None, ...)` never happens there.
- The store: `Settings` has no `settings` attribute, so in the code every `settings.settings.value`/`setValue` call raises and is swallowed. The model follows the intended read-modify-write on a key-value store.
- The store's keys: it is keyed by a `Key` datatype instead of slash-separated paths. `Stats.Path` gives each key its path, and `Stats.PathIsInjective` shows that no information is lost.
- Stats.NextRuleStats: the rule's `today` counter is never reset, as in the code.
- `cleanup_media`: the file deletion is left out. The model records which paths were cleaned.
- `download_media` of `core/twitter.py` and `get_client_info` are left out. The media download the engine uses is an oracle.
- Network calls to Twitter (`media_upload`, `update_status`, `verify_credentials`) are oracles. `add_client`'s credential check is the `credentialsVerify` parameter.
- asyncio: `asyncio.sleep` is recorded in the engine's `sleeps` log, not performed. Handler registration is an oracle.
- `re.search` is an oracle that returns None for a pattern that does not compile.
- `str.format` is simplified: only `{text}` and `{link}` are substituted. Brace escaping and the KeyError for unknown fields are not modelled.
- The clock (`datetime.now`, elapsed time) is a set of parameters.
- Forward.ForwardEngine.HandleMessage: one `Env` serves every rule of a message's fan-out. Every rule sees the same clock reading (`now`, `today`, elapsed time), and the same request to an oracle gets the same answer for every rule. The code reads the clock again for each rule, and a repeated network call could answer differently.
- Forward.TelegramRequest: the target id is parsed as an optional `-` followed by ASCII digits. Python's `int()` also accepts a `+` sign, surrounding whitespace, `_` separators and non-ASCII digits. The program only ever stores target ids written as `str(id)` of an integer, which both accept alike.
- `json.dumps`/`json.loads` are taken to be a faithful codec, so the JSON columns hold decoded values.
- SQLite execution, `_create_tables`, `backup_database`, `restore_database` and `migrate_from_qsettings` are left out.
  - `update_statistics` is left out because its `ON CONFLICT` has no matching UNIQUE constraint.
  - `get_group_by_external_id` is left out because it relies on an unordered `fetchone`.
  - The tables are kept in rowid order.
- Database.DatabaseManager.GetRuleById: because ids are unique, it is stated for "a rule with that id" rather than the first one.
- Database.DatabaseManager.GetRules: the `enabledOnly` case is stated for tables whose `is_enabled` flags are 0 or 1. These are the only values the save and update methods write.
- Tools.AdjustDecimalPlaces: Decimal context precision, and the InvalidOperation it can raise, are not modelled. Conversion from `str`/`float` is not modelled either; the value is a coefficient and exponent pair. Only the default rounding mode, ROUND_HALF_UP, is modelled.
- ErrorHandling: the wiring defects of `error_handler` are left out. These are the missing `time` import, the `wrapper` reassigned inside itself, and the `src.utils` import. Its `retry_config` path and its logging are left out too.
- Logging, file I/O and the Qt UI are left out.
