# RTKSBOT core, modelled in Dafny

This project models the decision logic of RTKSBOT, a Discord bot. It does
not model the Discord plumbing. Each state change is a pure function from
the old state to the new one. The clock, random draws, member presence and
guild membership are passed in as plain inputs.

The modules follow the bot's files:

- `KasoStore`, `KasoLevel`, `KasoReport` model the activity ("kaso")
  engine of `cogs/kasocheck.py`:
  - the per-guild, per-channel store of ISO timestamps, compared as
    Python compares strings;
  - pruning and window counts;
  - the level ladder, the colour, label and status bands, and the emoji
    activity bar;
  - the length-limited line joiner;
  - the guild summary aggregation;
  - the period parser.
- `FakeChinese` models `cogs/fake_chinese.py`: Chinese numerals both ways,
  the dice parser and roller, the kana and letter validator, the violation
  counter and the rule-bound channel list.
- `KanaCipher` models the kana-to-kanji substitution of
  `modules/channel_management.py`.
- `PcParts` models the parts tables, the weighted draw, the hash-rate and
  power sums and build validity of `modules/pc_parts.py`.
- `PcCommands` models the `/pc-shop`, `/pc-assemble` and `/leaderboard`
  logic of `bot.py`.
- `Economy` models the coin ledger of `economy.py`.
- `BotMonitor` models the presence monitor of `cogs/botmonitor.py`.
- `VcOwner` models the voice-channel owner mark of
  `cogs/VC_OwnerEmojiAdd.py`.
- `MusicQueue` models the queue of `modules/music.py`.
- `Catmeme` models the trigger responder of `cogs/catmeme.py`.
- `Pokedex` models the kana search and pager of `cogs/pokedex.py`.
- `VoiceText` models the auto-read text cleaner of `modules/voice.py`.
- `RestartLimiter` models the restart limiter of `service_wrapper.py`.
- `ConfigCheck` models the settings check of `config/config.example.py`.
- `Common` and `Sorting` hold shared helpers:
  - `Option`;
  - Python's `str.isspace`, `strip`, `lower` on ASCII, `in` on strings,
    `int()` and `str()` on integers, and `split`/`join`;
  - a stable descending sort, which stands for Python's `sorted(...,
    reverse=True)` and for SQL `ORDER BY`.

A few conventions hold throughout:

- Python floats are exact `real`s.
- Dictionaries whose iteration order matters take the order of their keys
  as a parameter.
- The code is followed where the documentation around it disagrees:
  - `compute_kaso_level`'s docstring lists stale thresholds, and the model
    uses the ladder at `cogs/kasocheck.py:27`;
  - the per-channel level divides the total by the number of stored
    channels, empty ones included, as line 190 does.

## Model

| member | source | states |
|---|---|---|
| KasoStore.AddMessage | cogs/kasocheck.py:84-89 | The timestamp is appended to the end of that guild and channel's list, creating the missing maps; every other list is unchanged |
| KasoStore.KeepSinceMembers | cogs/kasocheck.py:92-104 | A timestamp survives the retention filter exactly when it was stored and is not earlier than the cutoff |
| KasoStore.KeepSinceAppend | cogs/kasocheck.py:92-104 | The filter keeps the original order: filtering a concatenation filters each part on its own |
| KasoStore.PruneOld | cogs/kasocheck.py:92-104 | Pruning filters every list of the named guild, or of all guilds when none is named; other guilds are untouched, emptied channel keys stay, and an unknown guild adds nothing |
| KasoStore.PruneOldIdempotent | cogs/kasocheck.py:92-104 | Pruning twice with the same cutoff is the same as pruning once |
| KasoStore.PruneKeepsRecentCounts | cogs/kasocheck.py:92-128 | Pruning at a horizon does not change the count of any later window |
| KasoStore.CountMessagesInPeriod | cogs/kasocheck.py:123-128 | The count is the number of stored timestamps at or after the cutoff, 0 for an unknown guild or channel, and never more than the list's length |
| KasoStore.CountMessagesInRange | cogs/kasocheck.py:130-134 | The count is the number of stored timestamps between start and end, both ends included; it is 0 for an unknown guild or channel and never more than the count from the start onward |
| KasoStore.KeepBetweenMembers | cogs/kasocheck.py:130-134 | A timestamp is in the range exactly when it is stored and lies between the two ends, both included |
| KasoStore.CountBetweenAppend | cogs/kasocheck.py:130-134 | Range counts add up over concatenated message lists |
| KasoStore.RangeCountAfterAdd | cogs/kasocheck.py:130-134 | Recording a message raises that channel's range count by one exactly when the timestamp is inside the range; other channels keep their counts |
| KasoStore.RangeUpToLatest | cogs/kasocheck.py:123-134 | A range whose end is at or after every stored message counts what the period from its start counts |
| KasoStore.CountSinceAntitone | cogs/kasocheck.py:123-128 | A later cutoff never counts more messages |
| KasoLevel.ComputeLevel | cogs/kasocheck.py:324-348 | The level always lies in 1..10 |
| KasoLevel.LevelCountsMissedThresholds | cogs/kasocheck.py:342-348 | The level is 1 plus the number of ladder steps the daily average misses, i.e. the first step it reaches, or 10 when it reaches none |
| KasoLevel.AverageReachesIff | cogs/kasocheck.py:342-347 | For a positive number of days the float test `count / days >= th` is exactly `count >= th * days` |
| KasoLevel.MoreMessagesNoQuieter | cogs/kasocheck.py:27 | With the default ladder, more messages never give a quieter level |
| KasoLevel.LevelExtremes | cogs/kasocheck.py:27 | The level is 1 exactly when the count reaches 4000 a day, and 10 exactly when it stays below 50 a day |
| KasoLevel.ThresholdsDescending | cogs/kasocheck.py:27 | The default ladder is strictly decreasing |
| KasoLevel.LevelToColor | cogs/kasocheck.py:261-267 | Green exactly for levels up to 3, red exactly above 6, yellow otherwise |
| KasoLevel.LevelLabel | cogs/kasocheck.py:269-277 | The label is a coloured square, " レベル ", then the level in decimal, which reads back as the level |
| KasoLevel.LabelMatchesColor | cogs/kasocheck.py:261-277 | The label's square has the same colour as the embed colour of that level |
| KasoLevel.StatusTextsAgree | cogs/kasocheck.py:281-301 | Two levels share a status label exactly when they share a description, and a quieter level never falls in a busier band |
| KasoLevel.RoundHalfEven | cogs/kasocheck.py:246 | Python `round`: the nearest integer, with ties going to the even one |
| KasoLevel.BarShowsPercent | cogs/kasocheck.py:241-259 | The bar has `length` cells; its coloured prefix has one colour and the rest is white; the prefix is `round(clamp(p) / 100 * length)`: within half a cell of the clamped share, and even when the share is exactly halfway |
| KasoLevel.BarTiesToEven | cogs/kasocheck.py:245-246 | Halfway shares round to the even count: 6.25% of 8 cells colours none, 18.75% colours two, 50% of one cell colours none |
| KasoLevel.BarOfShare | cogs/kasocheck.py:245-246 | A share exactly halfway between two cell counts colours the even one |
| KasoLevel.BarExtremes | cogs/kasocheck.py:241-259 | 100 percent is all green and 0 percent is all white |
| KasoLevel.ParsePeriodBare | cogs/kasocheck.py:30-46 | A bare number is that many days |
| KasoLevel.ParsePeriodDays | cogs/kasocheck.py:30-46 | A number followed by "d" is that many days |
| KasoLevel.ParsePeriodWeeks | cogs/kasocheck.py:30-46 | A number followed by "w" is seven times that many days |
| KasoLevel.ParsePeriodUpperCase | cogs/kasocheck.py:30-46 | The unit is read case-insensitively |
| KasoLevel.ParsePeriodBareUnit | cogs/kasocheck.py:30-46 | "d" alone raises the parse error; an unknown unit falls back to 3 days |
| KasoReport.JoinLinesWithLimit | cogs/kasocheck.py:303-322 | The result starts with the first line, fits the limit whenever the first line does, and is the plain join when everything fits |
| KasoReport.StoppedAt | cogs/kasocheck.py:311-319 | The joiner keeps lines exactly up to the first one that would overflow |
| KasoReport.ChannelCounts | cogs/kasocheck.py:170-177 | The channels counted are exactly the guild's stored channels, each once, in iteration order, each with its count for the period |
| KasoReport.PerChannelAverage | cogs/kasocheck.py:189-191 | The per-channel average is the floor of total divided by the number of channels, and 0 when there are none |
| KasoReport.Summarize | cogs/kasocheck.py:168-233 | Every stored channel is ranked; the total is the sum of the ranked counts; the guild level is the level of the total and the per-channel level that of the floored average; the top entries are built from the first `top` ranked channels and the listed channels are the first 50; activity is `11 - level` in 1..10; the colour is the guild level's colour |
| KasoReport.SummaryRanking | cogs/kasocheck.py:178-179 | The ranking is a permutation of the counts, busiest first, with ties in store order; the total is their sum |
| KasoReport.SummaryTopEntries | cogs/kasocheck.py:181-188 | Top entry i has rank i+1, the i-th ranked channel and count, the percentage `Percent(count, total)` which lies in 0..100, its own level, and the 8-cell bar of that percentage |
| KasoReport.PercentOfTotal | cogs/kasocheck.py:182 | The percentage times the total is the count times 100, and it is 0 when the total is 0 |
| KasoReport.GuildLevelAtMostPerChannel | cogs/kasocheck.py:189-193 | The guild total is never at a quieter level than the per-channel average |
| KasoReport.QuietGuildSummary | cogs/kasocheck.py:179-188 | With no messages, the guild level is the level of 0 and every top entry shows 0 messages at 0 percent |
| Sorting.SortDesc | cogs/kasocheck.py:178 | Sorting is a permutation of its input |
| Sorting.SortDescSorted | cogs/kasocheck.py:178 | The result is in descending key order |
| Sorting.SortDescStable | cogs/kasocheck.py:178 | Elements of equal key keep their relative order, as Python's sort does |
| Sorting.SortDescSum | cogs/kasocheck.py:179 | Sorting does not change the sum of the keys |
| FakeChinese.ConvertChineseNumber | cogs/fake_chinese.py:162-183 | The value is at least 1, and a single numeral reads as its own value |
| FakeChinese.ConvertExamples | cogs/fake_chinese.py:162-183 | 三十五 is 35, 二十 is 20, 一百万 is 10100, and 零 is 1 |
| FakeChinese.NumberToChinese | cogs/fake_chinese.py:230-254 | 1..9 give one numeral and n <= 0 gives 零; above 100 every number except 1000 and 10000 is written in decimal digits |
| FakeChinese.NumberRoundTrip | cogs/fake_chinese.py:162-254 | Decoding the numeral of n gives n back for 1..99, 100, 1000 and 10000 |
| FakeChinese.LargeNumbersDoNotRoundTrip | cogs/fake_chinese.py:230-254 | 123 is written "123", which decodes to 1 |
| FakeChinese.ParseChineseDice | cogs/fake_chinese.py:137-160 | There is a result exactly when some '賽' has a numeral on each side; both numbers are at least 1 |
| FakeChinese.DiceInSentence | cogs/fake_chinese.py:137-160 | The numeral runs around the first '賽' are read, even inside a sentence |
| FakeChinese.DiceNeedsCount | cogs/fake_chinese.py:137-160 | A '賽' without a count before it is no dice roll |
| FakeChinese.RollDice | cogs/fake_chinese.py:185-198 | The roll is refused exactly outside 1..100 dice and 1..10000 sides; otherwise there is one value per die, each in 1..sides |
| FakeChinese.EveryRollPossible | cogs/fake_chinese.py:185-198 | Every list of in-range values is the roll for some random draws |
| FakeChinese.IsChineseOnlyIff | cogs/fake_chinese.py:60-75 | After stripping, text passes exactly when it is blank, or has no forbidden kana and no one-letter Latin word |
| FakeChinese.OneLetterWordIffIsolated | cogs/fake_chinese.py:69-73 | The letter-run split has a one-letter word exactly when some letter has no letter on either side |
| FakeChinese.AddViolation | cogs/fake_chinese.py:82-96 | The pair's count goes up by exactly one from 0, the role flag is kept, the result says whether the count reached 10, and other pairs are unchanged |
| FakeChinese.SetIllegalRoleFlag | cogs/fake_chinese.py:98-106 | Only an existing entry gets its flag set |
| FakeChinese.HasIllegalRole | cogs/fake_chinese.py:108-112 | An unknown pair has no role |
| FakeChinese.ResetViolations | cogs/fake_chinese.py:501-533 | The pair's record is removed and nothing else changes |
| FakeChinese.RepeatCount | cogs/fake_chinese.py:82-96 | After n violations the count is n, and the n-th reports the limit exactly when n >= 10 |
| FakeChinese.AddChineseChannel | cogs/fake_chinese.py:331-333 | The channel is added at the end only if it is not already listed |
| FakeChinese.RemoveChineseChannel | cogs/fake_chinese.py:350-352 | A listed channel loses its first occurrence, and the channels before and after it keep their order; an unlisted one changes nothing |
| FakeChinese.RemoveFirstKeepsOrder | cogs/fake_chinese.py:351 | `list.remove` leaves what precedes the first occurrence followed by what comes after it |
| FakeChinese.ChannelListFacts | cogs/fake_chinese.py:319-357 | Adding keeps the list free of duplicates, removing leaves the channel unlisted, and removing a just-added channel restores the list |
| KanaCipher.ConvertToChinese | modules/channel_management.py:44-53 | The length is kept; keys are replaced by their kanji and every other character is copied in place |
| KanaCipher.ValuesAreNotKeys | modules/channel_management.py:23-42 | No kanji of the map is itself a key |
| KanaCipher.ConvertIdempotent | modules/channel_management.py:23-53 | Converting twice is converting once |
| KanaCipher.ChangedIffHasKey | modules/channel_management.py:410-437 | The message is reposted exactly when it holds a key character |
| KanaCipher.NotInjective | modules/channel_management.py:35-37 | み and び both become 美, so the conversion has no inverse |
| PcParts.RarityRate | modules/pc_parts.py:296-302 | Every tier has a positive weight |
| PcParts.PickIff | modules/pc_parts.py:322-338 | The weighted pick lands on entry j exactly when the scaled draw falls in j's slice of the cumulative weights |
| PcParts.GetRandomPart | modules/pc_parts.py:322-338 | The drawn part is an entry of the requested table, of that kind |
| PcParts.EveryPartCanBeDrawn | modules/pc_parts.py:322-338 | Every entry of a table is drawn by some random value |
| PcParts.TotalHashRate | modules/pc_parts.py:341-355 | The hash rate is the GPU sum of hash rate times quantity plus the CPU's hash rate when the table knows it; non-negative for non-negative quantities |
| PcParts.TotalPower | modules/pc_parts.py:357-372 | The power is the GPU sum of power times quantity plus the CPU's power when the table knows it; non-negative for non-negative quantities |
| PcParts.TotalsAddGpu | modules/pc_parts.py:341-372 | One more GPU line raises both totals by its figures times its quantity, by nothing for an unknown GPU, and the motherboard and PSU never count |
| PcParts.GpuSumSingle | modules/pc_parts.py:341-372 | One GPU line adds its table value times the quantity when the name is known, and nothing otherwise |
| PcParts.GpuSumAppend | modules/pc_parts.py:341-372 | The GPU sum is additive over the lines of the build |
| PcParts.UnknownGpusCountNothing | modules/pc_parts.py:341-372 | GPUs missing from the table add nothing |
| PcParts.TotalsExample | modules/pc_parts.py:341-372 | Two RTX 4090s and an i9-13900K give 265 hash rate and 1025 W; the board adds nothing |
| PcParts.IsBuildValid | modules/pc_parts.py:375-397 | Too many GPUs for a known board is reported first; otherwise a known PSU loaded over 80 percent is reported with the power; otherwise the build is valid |
| PcParts.ValidBuildBounds | modules/pc_parts.py:375-397 | A valid build draws at most 80 percent of a known PSU and has no more GPUs than a known board's slots |
| PcParts.BoardCheckedFirst | modules/pc_parts.py:378-385 | A build that breaks both rules reports the board |
| PcParts.PsuBudgetExample | modules/pc_parts.py:388-397 | One RTX 4090 fits a 600 W PSU; adding an i9 does not |
| PcCommands.PcShop | bot.py:279-338 | A quantity outside 1..10 changes nothing; the cost is base price times quantity; a short balance changes nothing but the account creation; a sale draws that many parts and debits the cost |
| PcCommands.PcShopSound | bot.py:279-338 | The shop keeps the ledger sound and logs exactly one purchase per sale |
| PcCommands.PcShopAsWritten | bot.py:279-369 | As written, no purchase completes: the quantity and balance refusals stand, every other request ends in the error reply, and only the account creation changes the ledger |
| PcCommands.ShopNeverSellsAsWritten | bot.py:310-369 | Every sale of the intended command is an error reply as written, with the cost left undebited |
| PcCommands.CheckPart | bot.py:564-568 | A part is unowned, out of stock, or accepted, and exactly one of these |
| PcCommands.GpuPass | bot.py:560-572 | Each stripped GPU name in stock is counted once per occurrence; the others add errors in order |
| PcCommands.PcAssemble | bot.py:558-631 | Any error rejects the request; an empty build is refused; a build failing the validity check is refused; otherwise the named parts are assembled |
| PcCommands.PcAssembleAsWritten | bot.py:558-667 | As written, no build is saved: every refusal is as in `PcAssemble`, and a build that would be assembled ends in the error reply |
| PcCommands.AssembleNeverSavesAsWritten | bot.py:629-667 | One owned GPU named once would be assembled, and as written it gets the error reply |
| PcCommands.AssembleFacts | bot.py:558-612 | There are no errors exactly when every named part is in stock, and then the build is empty exactly when nothing was named |
| PcCommands.AssembleIgnoresMultiplicity | bot.py:560-572 | Owning one GPU is enough to assemble a build that names it twice |
| PcCommands.PcAssembleChecked | bot.py:560-572 | The request is rejected exactly when a part is missing or a GPU is named more often than it is in stock; without such a GPU the outcome is that of `PcAssemble`; an assembled build never uses more of a GPU than is in stock |
| PcCommands.CheckedAcceptsCoveredRequest | bot.py:560-572 | A request whose GPUs are each named at most as often as they are in stock gets the same outcome from the checked command as from the one as written |
| PcCommands.CheckedRefusesOverdraw | bot.py:560-572 | The checked command refuses two RTX 4090s when one is owned |
| PcCommands.RankLabel | bot.py:759-766 | Ranks 1, 2 and 3 get medals and rank i otherwise gets "i." |
| PcCommands.RankLabelsDistinct | bot.py:759-766 | Different ranks get different labels |
| Economy.GetUserBalance | economy.py:21-44 | A known account reports its balance; an unknown one is created and reports 1000 |
| Economy.NewAccountSound | economy.py:35-40 | A new account balances, with 1000 earned, nothing spent and a balance of 1000 |
| Economy.UpdateBalance | economy.py:46-79 | A change that would make the balance negative changes nothing but the account creation; otherwise the balance moves by the amount and exactly one transaction is logged |
| Economy.Moved | economy.py:58-65 | A credit adds to the total earned and a debit to the total spent, so earned minus spent minus balance is kept |
| Economy.UpdateBalanceSound | economy.py:35-65 | `balance == earned - spent` and a non-negative balance hold for every account after any update |
| Economy.CreditSucceeds | economy.py:52-55 | A credit never fails |
| Economy.CreditThenDebit | economy.py:46-79 | A credit followed by the same debit restores the balance while both totals grow by the amount |
| Economy.DailyAmount | economy.py:99-102 | The daily bonus is 1000 to 2500 coins |
| Economy.DailyRewardAsWritten | economy.py:81-128 | The cooldown compares the local clock with a stored UTC instant; a claim credits 1000 to 2500 coins and stores the UTC time |
| Economy.DailyCooldownShortOnJapaneseHost | economy.py:91-94 | On a host nine hours ahead of UTC a second claim succeeds eleven hours after the first |
| Economy.DailyReward | economy.py:81-128 | On one clock, a claim is refused exactly within 20 hours of the last one, and otherwise credits 1000 to 2500 coins |
| Economy.DailyClaimsTwentyHoursApart | economy.py:91-116 | Two successful claims are at least 20 hours apart |
| Economy.DailyRewardSound | economy.py:81-128 | A claim outside the cooldown never fails and keeps the ledger sound |
| Economy.MiningAmount | economy.py:143-145 | `int(50 * power * u)` with u in 0.7..1.3 lies between 35 and 65 times the power |
| Economy.MiningReward | economy.py:130-171 | The power is the stored one, or 1 without a row; the reward lies in 35..65 times the power; a success credits the reward to the miner's balance, logs one transaction and one history row, and leaves every other account unchanged |
| Economy.MiningSucceeds | economy.py:130-171 | Mining with non-negative power always succeeds and keeps the ledger sound |
| Economy.FindItem | economy.py:196-204 | An item is found exactly when the guild has an active item with that id |
| Economy.BuyItem | economy.py:191-252 | A missing item changes nothing; a short balance changes nothing but the account creation; a purchase debits the price, logs it, adds a `mining_power` item's effect to the power, turns auto-mining on for a `mining_auto` item, records one item row, and leaves every other account unchanged |
| Economy.BuyItemSound | economy.py:191-252 | Buying keeps the ledger sound |
| Economy.GetShopItems | economy.py:173-189 | The listing holds exactly the guild's active items |
| Economy.ShopItemsAscending | economy.py:181-182 | The listing is in ascending price order |
| Economy.GetLeaderboard | economy.py:254-270 | Over an order of the whole table, the leaderboard is the guild's rows by descending balance; it has exactly `limit` rows, or all of them when there are fewer or the limit is negative; no user appears twice |
| Economy.LeaderboardListsGuild | economy.py:258-263 | When the limit does not cut, every account of the guild is on the leaderboard |
| Economy.GuildRowsFromKeys | economy.py:258-262 | Every leaderboard row is the row of an account of that guild |
| Economy.GuildRowsComplete | economy.py:258-262 | Every account of the guild gives its row |
| Economy.GuildRowsDistinct | economy.py:258-262 | With each account once in the table, each user of the guild has one row |
| Economy.SortedUsersDistinct | economy.py:262 | Ordering by balance keeps each user on one row |
| Economy.LeaderboardRanked | economy.py:262-263 | The board is ordered by balance, and no row left out is richer than any row shown |
| BotMonitor.GetStatus | cogs/botmonitor.py:337-338 | Unknown guilds and targets are offline |
| BotMonitor.SetStatus | cogs/botmonitor.py:340-347 | Setting the current value changes nothing; otherwise both the live and the persisted maps get the value; other pairs are unchanged |
| BotMonitor.SetOfflineUnknownIsNoop | cogs/botmonitor.py:340-347 | Setting an unknown target offline creates no entry |
| BotMonitor.AddBot | cogs/botmonitor.py:224-320 | Non-bots only for the tester, bots only for admins or the tester, no target twice; otherwise the target is added with its online status, other guilds untouched |
| BotMonitor.RemoveBot | cogs/botmonitor.py:392-431 | A non-integer or unknown id changes nothing; otherwise the target leaves that guild's three maps and nothing else changes |
| BotMonitor.AddThenRemove | cogs/botmonitor.py:224-431 | Adding a target and removing it by its id leaves it unwatched and offline |
| BotMonitor.Send | cogs/botmonitor.py:633-676 | An online notice is suppressed when the persisted status is already online; otherwise one notice is sent and persisted |
| BotMonitor.CheckOne | cogs/botmonitor.py:574-629 | Unreachable guilds are skipped; otherwise an offline notice is sent exactly on online-to-offline, an online notice only on offline-to-online, and the status becomes the presence |
| BotMonitor.MissingMemberIsOffline | cogs/botmonitor.py:586-600 | A member the guild no longer has counts as offline |
| BotMonitor.CheckOneSettles | cogs/botmonitor.py:574-629 | A second check with the same presence sends nothing and changes nothing |
| BotMonitor.CheckAll | cogs/botmonitor.py:558-631 | The watched set is untouched, only watched pairs change status, and every notice is about a watched pair |
| BotMonitor.CheckAllOfflineNotices | cogs/botmonitor.py:558-631 | Over a check of distinct pairs, a pair gets an offline notice exactly when it is watched in a reachable guild and goes from online to offline |
| BotMonitor.CheckAllStatus | cogs/botmonitor.py:558-631 | After a check every watched pair of a reachable guild holds its current presence |
| BotMonitor.InitCache | cogs/botmonitor.py:88-103 | Every watched pair's live status becomes its presence; other entries are untouched |
| BotMonitor.StartupNotice | cogs/botmonitor.py:104-132 | A startup notice is sent only when a persisted value exists and differs from the live one, for a watched target of a reachable guild the bot is in |
| BotMonitor.Startup | cogs/botmonitor.py:88-137 | After startup the persisted map equals the live one and every notice reports a real change |
| VcOwner.OwnerNick | cogs/VC_OwnerEmojiAdd.py:52-61 | No edit when the name already ends with the mark; otherwise the nickname ends with the mark, fits 32 characters, and starts with the name, cut only when needed |
| VcOwner.OwnerNickIdempotent | cogs/VC_OwnerEmojiAdd.py:52-61 | A marked name is never marked again |
| VcOwner.SetOwner | cogs/VC_OwnerEmojiAdd.py:48-66 | The owner and the original nickname are recorded even when no edit is needed |
| VcOwner.ClearOwner | cogs/VC_OwnerEmojiAdd.py:68-88 | The recorded nickname is requested back, none meaning reset, and both records are dropped; other records are unchanged |
| VcOwner.SetThenClear | cogs/VC_OwnerEmojiAdd.py:48-88 | Marking then unmarking requests the original nickname back and leaves no record |
| VcOwner.VoiceUpdate | cogs/VC_OwnerEmojiAdd.py:91-121 | Joining a channel with one member sets the owner; the owner leaving clears it; a move is a leave then a join; staying put changes nothing |
| VcOwner.NonOwnerLeaveIsNoop | cogs/VC_OwnerEmojiAdd.py:102-107 | A member leaving a channel they do not own changes nothing |
| VcOwner.JoinThenLeave | cogs/VC_OwnerEmojiAdd.py:91-121 | The first member in becomes owner, and on leaving gets the original nickname back |
| MusicQueue.Add | modules/music.py:77-78 | The track goes to the back and nothing else changes |
| MusicQueue.GetNext | modules/music.py:80-86 | With loop on and a current track, that track again and no change; else the front is popped and becomes current; an empty queue gives nothing |
| MusicQueue.Clear | modules/music.py:88-89 | The queue empties; current track, loop and volume are kept |
| MusicQueue.FifoOrder | modules/music.py:77-86 | Without looping, tracks come out in queue order and the queue ends empty |
| MusicQueue.AddAllThenDrain | modules/music.py:77-86 | Tracks added to a new queue come back in the order added |
| MusicQueue.LoopRepeats | modules/music.py:80-82 | With loop on, the current track repeats forever and the queue is left alone |
| MusicQueue.GetMusicQueue | modules/music.py:178-182 | A guild's queue is created on first use and otherwise returned as it is |
| MusicQueue.GetMusicQueueStable | modules/music.py:178-182 | A second lookup returns the queue the first one created or found |
| MusicQueue.Listing | modules/music.py:358-374 | At most ten entries, numbered from 1, and a note with the number of further tracks exactly when there are more |
| Catmeme.Respond | cogs/catmeme.py:124-148 | A reply is sent exactly to a non-bot role holder in an enabled guild whose message holds a trigger; it links the first trigger in table order |
| Catmeme.FirstMatch | cogs/catmeme.py:143-148 | The match is the first trigger, in table order, found in the lowercased message |
| Catmeme.Shadowed | cogs/catmeme.py:143-148 | A trigger that contains an earlier one is never chosen |
| Catmeme.YattaShadowed | cogs/catmeme.py:15-16 | 'やったー' is never chosen |
| Catmeme.BananaDashShadowed | cogs/catmeme.py:43-44 | 'バナナダッシュ' is never chosen |
| Catmeme.Hannou | cogs/catmeme.py:150-273 | Admin on enables the guild and stores the role only once it is granted; non-admin on needs an enabled guild; admin off disables it and keeps the role id; other modes change nothing |
| Catmeme.OffSilences | cogs/catmeme.py:243-245 | After an admin turns the responder off, no message in that guild is answered |
| Catmeme.OnThenMessage | cogs/catmeme.py:160-219 | After an admin turns it on with the role, a role holder's message with a trigger is answered |
| Pokedex.KatakanaToHiragana | cogs/pokedex.py:18-27 | Each katakana code point moves down by 0x60, other characters are kept, the length is kept, and no katakana remains |
| Pokedex.FoldIdempotent | cogs/pokedex.py:18-27 | Folding twice is folding once |
| Pokedex.Candidate | cogs/pokedex.py:149-151 | The name searched on is the kana name, else the Japanese name, else the English one |
| Pokedex.SearchByKana | cogs/pokedex.py:143-156 | The hits are exactly the cached entries whose folded name starts with the folded query, in cache order |
| Pokedex.HitsAscending | cogs/pokedex.py:135-156 | A cache sorted by id gives hits sorted by id |
| Pokedex.Prev | cogs/pokedex.py:55-59 | The page goes back only when it is past the first, and stays reachable |
| Pokedex.Next | cogs/pokedex.py:61-65 | The page goes forward only when the next page starts inside the list, and stays reachable |
| Pokedex.EntryOnPage | cogs/pokedex.py:38-39 | Entry i appears on page i div 10 at position i mod 10 |
| Pokedex.ReachablePageNonEmpty | cogs/pokedex.py:38-65 | An in-range page of a non-empty list is never empty |
| Pokedex.OpenAsWritten | cogs/pokedex.py:221-222 | The view opens at the typed page minus one, or at the first page for a page below 1, with no upper bound |
| Pokedex.OpenOkIff | cogs/pokedex.py:221-222 | The opened view is in range exactly when the typed page is at most 1 or its first entry exists |
| Pokedex.OpenPastEndShowsNothing | cogs/pokedex.py:38-65 | Three hits opened at page 50 show an empty page, `Next` stays put and `Prev` leads to another empty page |
| Pokedex.Open | cogs/pokedex.py:221-222 | The intended open clamps the typed page to the last page, so the view is always in range |
| Pokedex.DriveKeepsOk | cogs/pokedex.py:55-65 | Any sequence of Prev and Next presses keeps an in-range view in range |
| Pokedex.OpenedViewsNonEmpty | cogs/pokedex.py:38-65 | From the clamped open, every view reached by presses shows at least one entry |
| VoiceText.SubNoMatch | modules/voice.py:335-344 | Text in which the pattern matches nowhere is left as it is |
| VoiceText.MentionReplaced | modules/voice.py:338-339 | A mention is replaced as a whole and the rest is treated on its own |
| VoiceText.CleanForSpeech | modules/voice.py:330-353 | No line break survives, at most 103 characters remain, the ends are not whitespace; short text is only substituted, given '。' for line breaks and stripped; longer text is its first 100 characters with leading whitespace removed, followed by '以下略' |
| VoiceText.StripMarked | modules/voice.py:350-353 | Stripping a cut text that ends in '以下略' only removes whitespace at its start |
| VoiceText.PlainTextSpokenAsIs | modules/voice.py:330-353 | Short plain text with nothing to replace is only stripped |
| VoiceText.AutoRead | modules/voice.py:262-326 | Speech is produced exactly for a non-bot message in the read channel while connected and with text left after cleaning; the speaker is the stored one, or 3 without stored settings |
| RestartLimiter.Recent | service_wrapper.py:20-22 | The kept times are exactly the earlier ones less than an hour old, in order |
| RestartLimiter.ShouldRestart | service_wrapper.py:18-27 | A start is allowed exactly when fewer than ten recent starts remain |
| RestartLimiter.RecentIdempotent | service_wrapper.py:20-22 | Pruning twice at the same time prunes nothing more |
| RestartLimiter.RunStep | service_wrapper.py:71-95 | The time is appended only after a successful start; a refused check waits an hour and a failed start retries |
| RestartLimiter.StartsPerHourBounded | service_wrapper.py:71-95 | Right after any start at most ten starts lie in the hour before it |
| ConfigCheck.Errors | config/config.example.py:86-104 | Every failing check is reported, whatever else fails, and in check order |
| ConfigCheck.ValidateConfig | config/config.example.py:106-112 | The configuration is valid exactly when no check fails |
| ConfigCheck.BoundariesAccepted | config/config.example.py:94-104 | Port 1 and 65535, volume 0 and 100, daily 0 and max equal to min pass |
| ConfigCheck.RangeErrorsInOrder | config/config.example.py:92-104 | When every range check fails, the four range errors come in check order |
| ConfigCheck.LoadConfig | config/config.example.py:13-41 | The token and application id are the values set; each number is its set value read as an integer, or its default when unset; settings load exactly when every set numeric value reads as an integer |
| ConfigCheck.DefaultsParse | config/config.example.py:13-41 | Each default text (`"8080"`, `"1000"`, `"50"`, `"500"`, `"50"`) reads as its number |
| ConfigCheck.DefaultsLoad | config/config.example.py:13-41 | Unset numeric settings take their defaults 8080, 1000, 50, 500 and 50 |
| ConfigCheck.DefaultsValid | config/config.example.py:13-112 | With both identifiers set, the defaults pass every check |

## Left out

- Discord plumbing is left out: embeds, sends, permission lookups, listeners and command registration. Presence, member counts, guild membership, resolvable channels and role grants are inputs.
- Role creation and removal are left out. So are the non-admin "off" role removal in `hannou` and the nickname revert in `cog_unload`.
- The async loops are left out: the hourly prune task, the monitor loop and the restart loop. Each single pass is a function.
- Persistence is left out: JSON load and save in every cog, SQL schema and migrations, and `DETABASE/sqlite_db.py`. SQL rows are records.
- `_backfill_channel` is left out. It is a network history walk; its effect is repeated `AddMessage`.
- `on_member_update` in the monitor is left out. It is a second, event-driven path to the same status update that `CheckOne` models.
- The regex stripping at the start of `is_chinese_only` is left out. `FakeChinese.IsChineseOnly` takes the text after the URL and emoji removal.
- Lowercasing and the regex classes `\d` and `\w` cover ASCII only. Python's full Unicode case mapping and classes are not modelled.
- Floats are exact reals. Binary rounding of `count / days`, of `0.8 * wattage` and of the random multipliers is not modelled.
- Random draws are parameters: `random.choices`, `random.uniform` and `random.randint`.
- Clocks are parameters: `datetime.now`, `CURRENT_TIMESTAMP` and `time.time`.
- Display-only fields are left out: prices shown in embeds, transaction descriptions, percent strings, the efficiency ratio and `format_number`.
- `bot.py` calls two methods the economy class does not define: `add_part_to_inventory` (bot.py:314) and `update_pc_build` (bot.py:631). As written, each raises before anything is saved, and the exception handler answers with an error. No purchase is debited and no build is saved (see Findings). `PcShop`'s `Purchased` branch and `PcAssemble`'s `Assembled` branch model the evidently intended code. `PcShop` records the debit but does not add the parts to an inventory. `PcAssemble` returns the build but does not save it.
- The leaderboard command unpacks two fields from rows of four. `GetLeaderboard` models the query's rows; the unpacking error is not modelled.
- Database errors that return `False` or 0 from the economy methods are not modelled. `BuyOutcome.BuyFailed` is never produced.
- Economy.GetShopItems: rows of equal price keep table order, a choice that SQL `ORDER BY price` does not promise.
- Economy.GetLeaderboard: rows of equal balance keep table order, a choice that SQL `ORDER BY balance DESC` does not promise.
- The inventory is a map from part kind to names and counts. Missing names stand for absent JSON keys, and `""` stands for an omitted command parameter.
- Failed notification sends in the monitor are not modelled. A sent notice is assumed delivered and its status persisted.
- Music playback, volume changes and downloads are left out. `Queue.volume` is carried but never read.
- The PokeAPI fetches that fill the Pokédex cache are left out. The cache is an input, sorted by id.
- Speech synthesis is left out. `AutoRead` returns the text and the speaker it passes on. It selects speed, pitch and volume too, but only the speaker reaches the synthesiser (voice.py:322).
- Common.ParseInt: accepts ASCII digits only, while Python's `int()` also accepts other Unicode decimal digits (full-width `１２３`, for instance). A bot id typed that way is `BadId` in `BotMonitor.RemoveBot` (botmonitor.py:394), and such an environment value makes `ConfigCheck.LoadConfig` fail. Python accepts both.
- A settings module that fails to import (a non-integer environment value) is `None` from `ConfigCheck.LoadConfig`.
- KasoLevel.ParsePeriodToDays: its contract fixes only the empty-period default. The other forms are stated by the `ParsePeriod*` lemmas for numbers written in decimal.

## Findings

| source | as written | input that shows it | evidently intended | confidence | as-written member | corrected member |
|---|---|---|---|---|---|---|
| economy.py:91-94 | The 20-hour cooldown subtracts a `last_daily` stored by SQLite's `CURRENT_TIMESTAMP` (UTC) from `datetime.now()` (local time) | A host nine hours ahead of UTC: a claim at 00:00 UTC and another at 11:00 UTC both succeed | Both instants on one clock, so claims are at least 20 hours apart | not executed | Economy.DailyCooldownShortOnJapaneseHost | Economy.DailyClaimsTwentyHoursApart |
| bot.py:560-572 | A GPU passes when its stock is above 0, however many times the request names it | Own one "RTX 4090" and assemble "RTX 4090,RTX 4090": the build has two | A GPU may be named at most as many times as it is in stock | not executed | PcCommands.AssembleIgnoresMultiplicity | PcCommands.CheckedRefusesOverdraw |
| bot.py:310-319 | Each drawn part is passed to `add_part_to_inventory`, which the economy class does not define. The error is raised before the debit and caught at bot.py:367-369 | Any quantity in 1..10 with a balance that covers the cost: the reply is the error message and nothing is debited | The parts are added and the cost is debited | not executed | PcCommands.ShopNeverSellsAsWritten | PcCommands.PcShopSound |
| bot.py:631 | A valid build is passed to `update_pc_build`, which the economy class does not define. The error is caught at bot.py:665-667 | Own one GPU and assemble it alone: the build is valid, and the reply is the error message | The build is saved and its totals are shown | not executed | PcCommands.AssembleNeverSavesAsWritten | PcCommands.PcAssemble |
| cogs/pokedex.py:221-222 | The kana listing opens at `max(1, page) - 1` with no upper bound | Three hits and page 50: page index 49 shows no entries, `Next` does nothing and `Prev` steps through 48 more empty pages | The page is clamped to the last page of the hits | not executed | Pokedex.OpenPastEndShowsNothing | Pokedex.OpenedViewsNonEmpty |
