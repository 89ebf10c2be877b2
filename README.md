# WoW raid log tools — a verified model

This project models, in Dafny, the text-to-number core of four Python scripts that post-process World of Warcraft raid logs:

- **generate_threat_report.py** turns `TWT_THREAT` addon lines into threat snapshots. It cuts them into fights per target and computes per-player statistics. It classifies every player as tank, healer or dps, and rolls the figures up over the raid.
- **raid_log_filter.py** finds the raids in a combat log from its `ZONE_INFO` lines. It keeps only the lines logged while inside one chosen raid.
- **discord_card.py** reads the consumable totals of a raid. It filters out pets and non-members and adds the logger's own deaths. It sorts by cost, computes the summary figures of the card, and reads the Sunder Armor section of the summary file.
- **visualize_consumes.py** reads the same totals table with a lenient number parser. It skips an optional header row, sorts by cost, and computes the total, the maximum and the bar widths.

Files and lines are read as values: a file is a `seq<string>` of lines, and a CSV file is a `seq<seq<string>>` of records. Every loop of the scripts that builds up state is a `method` with a `while` or `for` loop, proved equal to a recursive specification function. The exceptions are first-match searches that return from inside the loop and change nothing. These are the keyword loops of both `zone_to_raid` functions (generate_threat_report.py:108, raid_log_filter.py:40) and the name lookup of `choose_raid_interactive` (raid_log_filter.py:108). They are the recursive functions `ZoneMatch.FirstKeyword` and `RaidLogFilter.FirstIgnoringCase`. The same lookup in `main` (raid_log_filter.py:169) is the method `RaidLogFilter.CanonicalRaid`. The properties the scripts promise are proved about those functions as lemmas.

| file | module | what it holds |
|---|---|---|
| wrappers.dfy | `Wrappers` | `Option` |
| text.dfy | `Text` | Python `str` operations: `strip`, `lower`, `split`, `join`, `split()` into words, `in`, `count`, `replace(c, "")`, `int()` and `str()` on integers |
| seqs.dfy | `Seqs` | the stable sort `sorted(s, key=…)` and its facts |
| currency.dfy | `Currency` | `copper_to_gsc`, `copper_to_gsc_short` |
| zone_match.dfy | `ZoneMatch` | first-match keyword tables, shared by both `zone_to_raid` functions |
| threat_log.dfy | `ThreatLog` | `Entry`, `Snapshot`, `Fight`, `parse_entry`, `parse_snapshot`, `part_sort_key`, the raid helpers |
| fight_split.dfy | `FightSplit` | `split_fights` |
| unit_stats.dfy | `UnitStats` | `build_unit_stats`, `classify_role` |
| raid_summary.dfy | `RaidSummary` | the raid-wide roll-up of `render_report` |
| raid_log_filter.dfy | `RaidLogFilter` | raid_log_filter.py |
| consume_rows.dfy | `ConsumeRows` | the `(name, copper, deaths)` rows, their descending sort and column sums |
| discord_card.dfy | `DiscordCard` | `safe_int`, `parse_sunder_data`, the row filter of `main`, the figures of `generate_html` |
| visualize_consumes.dfy | `VisualizeConsumes` | `to_int_any`, `make_bar`, the `sniff_delim` fallback, the table loop of `main` |

## Model

| member | source | states |
|---|---|---|
| Currency.ToCoins | discord_card.py:43-45 | the gold, silver and copper parts add back up to the amount (`g*10000 + s*100 + c == copper`); silver and copper lie in [0, 99] |
| Currency.CoinsUnique | visualize_consumes.py:19-21 | the decomposition is the only one with silver and copper in [0, 99] |
| Currency.Render | discord_card.py:46 | the text is the gold figure followed by two-digit silver and copper fields at fixed offsets |
| Currency.CopperToGsc | discord_card.py:41-46 | `copper_to_gsc`: `Render` of the `ToCoins` split of the amount; its meaning is stated by `ToCoins`, `CoinsUnique`, `Render` and `CopperToGscInjective` |
| Currency.CopperToGscShort | discord_card.py:49-56 | `copper_to_gsc_short`: stated by `ShortForm` |
| Currency.Pad2Injective | discord_card.py:46 | `{:02d}` gives different text for different values in [0, 99] |
| Currency.CopperToGscInjective | visualize_consumes.py:18-22 | different amounts are printed differently, so the printed text determines the amount |
| Currency.ShortForm | discord_card.py:49-56 | the short form drops exactly the trailing ` 00c`, and does so exactly when `copper % 100 == 0`; otherwise it equals the long form |
| Text.Strip | discord_card.py:62 | the result has no leading or trailing whitespace and is empty exactly when the input is all whitespace |
| Text.StripMiddle | discord_card.py:62 | the result is a contiguous slice of the input with only whitespace before and after it |
| Text.WordsOfWord | discord_card.py:228 | a single whitespace-free word splits into just that word |
| Text.JoinSplit | raid_log_filter.py:61 | joining the fields of `split(sep)` with `sep` gives back the line |
| Text.SplitJoin | raid_log_filter.py:61 | splitting a join of separator-free fields gives back the fields |
| Text.NatToStringRoundTrip | discord_card.py:62 | `str(n)` is a non-empty run of digits whose decimal value is `n` |
| Text.ParseIntOfIntToString | discord_card.py:62 | `int(str(i)) == i` for every integer, negative ones included |
| Text.ParseIntOfAllDigits | discord_card.py:62 | `int()` of a run of digits is its decimal value |
| Text.ParseIntAccepts | discord_card.py:62-64 | what `int()` accepts is, once stripped, a sign or digit followed by digits and underscores; text with any other character raises |
| Text.RemoveCharSplit | discord_card.py:62 | `replace(",", "")` removes exactly the comma between two comma-free texts |
| DiscordCard.SafeIntBlank | discord_card.py:59-64 | a blank or all-whitespace field falls back to `default` |
| DiscordCard.SafeInt | discord_card.py:59-64 | `safe_int`: `int()` of the stripped field with commas removed, else `default`; stated by `SafeIntBlank`, `SafeIntRejects`, `SafeIntOfIntToString` and `SafeIntIgnoresComma` |
| DiscordCard.SafeIntRejects | discord_card.py:59-64 | a field holding any character other than whitespace, a comma, a digit, a sign or an underscore (`"N/A"`, `"12.5"`, `"x"`) gives `default` |
| DiscordCard.SafeIntOfIntToString | discord_card.py:59-64 | a printed integer is read back exactly, whatever the default |
| DiscordCard.SafeIntIgnoresComma | discord_card.py:62 | a thousands comma between digit runs is ignored (`"1,337"` reads as 1337) |
| DiscordCard.SunderOfCounts | discord_card.py:228-233 | a section line of a name and two printed counts gives `(name, trash, boss)`; further words are ignored |
| DiscordCard.SunderOfTotal | discord_card.py:234-237 | a section line of a name and one printed count gives `(name, total, 0)` |
| DiscordCard.RecordsAt | discord_card.py:228-237 | the record read for line `k` is the record of that line's stripped text |
| DiscordCard.ParseSunderData | discord_card.py:205-241 | a missing file gives no records; otherwise the result is the records of exactly the lines the section rule reads, in file order |
| DiscordCard.SectionLine | discord_card.py:219-225 | inside the section, a blank or unindented line ends the scan, and any other line gives its record |
| DiscordCard.StoppedIsFinal | discord_card.py:221-225 | once the section has ended, no later line adds a record |
| DiscordCard.InSectionIff | discord_card.py:214-216 | the section is open after `n` lines exactly when one of them contains `Sunder Armor Summary` |
| DiscordCard.StoppedIff | discord_card.py:218-225 | the scan has ended exactly when a line read inside the section was blank or unindented |
| DiscordCard.NoHeaderNoSunders | discord_card.py:212-218 | without a header line no record is read |
| DiscordCard.SunderSource | discord_card.py:218-237 | every record returned comes from a line read inside the section |
| DiscordCard.CardRowRule | discord_card.py:879-894 | a record is dropped exactly when it has fewer than 2 fields, an empty name, a pet's name, or a name outside a non-empty member list; a kept row has the stripped name, `safe_int` copper and deaths, plus the logger's deaths on the logger's row only |
| DiscordCard.ReadRowsAt | discord_card.py:878-894 | the row read for record `i` is that record's filtered row |
| DiscordCard.SelectCardRows | discord_card.py:875-900 | no kept row is the error case; otherwise the result is the kept rows sorted by copper, most expensive first, ties in file order |
| DiscordCard.KeptMember | discord_card.py:894 | a row is kept exactly when some record yields it |
| DiscordCard.CardRowsMember | discord_card.py:878-894 | a row is in the result exactly when some record of the file yields it |
| DiscordCard.CardRowsFiltered | discord_card.py:885-900 | every result row has a non-empty name that is not a pet and, with a member list, is a member; copper is non-increasing along the result |
| DiscordCard.Figures | discord_card.py:255-260 | `players` is the number of rows; `avg_cost` is `total // players` (`avg*players <= total < avg*players + players`) or 0 with no rows; the total copper and total deaths are the column sums and the zero-death figure is the number of rows with no deaths |
| DiscordCard.ZeroDeathCount | discord_card.py:260 | at most every row has zero deaths |
| DiscordCard.ZeroDeathCountIsCount | discord_card.py:260 | the zero-death figure is the size of the set of row positions whose deaths are 0 |
| DiscordCard.SunderOfShortLine | discord_card.py:228-237 | a stripped line with fewer than two words yields no sunder record |
| DiscordCard.ZeroDeathSorted | discord_card.py:260 | sorting does not change the number of zero-death rows |
| DiscordCard.FiguresOfSorted | discord_card.py:255-260 | the card figures are the same before and after the descending sort |
| ConsumeRows.ByCopperDescFacts | discord_card.py:900 | the descending sort is a permutation, copper is non-increasing, and rows with equal copper keep their input order |
| ConsumeRows.TotalsAppend | discord_card.py:255-256 | the column sums of two row lists add up |
| ConsumeRows.TotalsOfSorted | visualize_consumes.py:79-80 | the copper and death totals do not depend on the order of the rows |
| Seqs.SortByPermutes | generate_threat_report.py:270 | `sorted` returns its input, reordered, with keys ascending |
| Seqs.SortByStable | generate_threat_report.py:270 | elements with equal keys keep their input order |
| Seqs.SortBySorted | generate_threat_report.py:257 | sorting an already sorted list changes nothing |
| Seqs.SortByMember | generate_threat_report.py:257 | sorting neither adds nor loses elements |
| VisualizeConsumes.FirstNumberNone | visualize_consumes.py:15-16 | `NUM_RE.search` finds no match exactly when the text has no digit |
| VisualizeConsumes.FirstNumber | visualize_consumes.py:7 | `NUM_RE.search(s)`, the leftmost `-?\d+`: stated by `FirstNumberNone`, `FirstNumberSkips`, `FirstNumberOfDigits`, `FirstNumberOfRun`, `FirstNumberOfNegRun` and `FirstNumberOfIntToString` |
| VisualizeConsumes.FirstNumberSkips | visualize_consumes.py:15-16 | text before the first digit that holds no `-` does not change the match |
| VisualizeConsumes.FirstNumberOfDigits | visualize_consumes.py:16 | a run of digits matches as its decimal value |
| VisualizeConsumes.FirstNumberOfRun | visualize_consumes.py:7 | a digit run followed by a non-digit matches up to its end (`"1337c"` gives 1337) |
| VisualizeConsumes.FirstNumberOfNegRun | visualize_consumes.py:7 | the same run right after a `-` matches as its negative |
| VisualizeConsumes.FirstNumberOfIntToString | visualize_consumes.py:15-16 | a printed integer, negative ones included, is matched as that integer |
| VisualizeConsumes.ToIntAnyBlank | visualize_consumes.py:10-14 | `None` and blank text give 0 |
| VisualizeConsumes.ToIntAny | visualize_consumes.py:9-16 | `to_int_any`: stated by `ToIntAnyBlank`, `ToIntAnyNoDigit`, `ToIntAnyOfRun`, `ToIntAnyOfNegRun`, `ToIntAnyOfIntToString` and `ToIntAnyIgnoresComma` |
| VisualizeConsumes.ToIntAnyOfRun | visualize_consumes.py:9-16 | after text with no digit or `-`, the first digit run is the value, whatever follows it (`"12g 34s"` gives 12) |
| VisualizeConsumes.ToIntAnyOfNegRun | visualize_consumes.py:9-16 | the same with a `-` right before the run gives its negative |
| VisualizeConsumes.ToIntAnyNoDigit | visualize_consumes.py:15-16 | text without a digit gives 0 |
| VisualizeConsumes.ToIntAnyOfIntToString | visualize_consumes.py:9-16 | a printed integer is read back exactly |
| VisualizeConsumes.ToIntAnyIgnoresComma | visualize_consumes.py:15 | a comma between digit runs is ignored (`"1,337"` gives 1337) |
| VisualizeConsumes.MakeBar | visualize_consumes.py:24-28 | there is no bar exactly when `max_value <= 0` |
| VisualizeConsumes.BarWithinTrack | visualize_consumes.py:27 | for `0 <= value <= max_value` the width lies in [0, 520], and the maximum gets the full 520 |
| VisualizeConsumes.BarMonotone | visualize_consumes.py:27 | a larger value never gets a narrower bar |
| VisualizeConsumes.SniffFallback | visualize_consumes.py:36 | the fallback is `;` or `,`; it has at least as many occurrences as the other, and `;` wins only with strictly more occurrences |
| VisualizeConsumes.EntriesAt | visualize_consumes.py:72-77 | the entry of record `i` is its row, or nothing when its name is empty |
| VisualizeConsumes.HeadersAt | visualize_consumes.py:64-70 | the header test of record `i` is the two header patterns |
| VisualizeConsumes.ParseTable | visualize_consumes.py:54-77 | the loop returns the rows of the specified table: usable records with a name, minus a header on the first usable record |
| VisualizeConsumes.CheckHeader | visualize_consumes.py:66-70 | the step decides the header test of record `i` |
| VisualizeConsumes.ReadEntry | visualize_consumes.py:72-77 | the step reads the entry of record `i` |
| VisualizeConsumes.ConsumeTable | visualize_consumes.py:54-81 | the rows are the table sorted by copper, descending; the total is their copper sum; the maximum is the first row's copper or 0, and bounds every row |
| VisualizeConsumes.FirstPassedIff | visualize_consumes.py:57-65 | the `first` flag is down exactly when a usable record has been seen |
| VisualizeConsumes.HeaderSkippedOnlyFirst | visualize_consumes.py:64-70 | no record after the first usable one is ever skipped as a header |
| VisualizeConsumes.TableMember | visualize_consumes.py:58-77 | a row is in the table exactly when some record yields it and was not skipped as the header |
| VisualizeConsumes.TableRowsNamed | visualize_consumes.py:72-77 | every row has a non-empty name and comes from a usable record with that stripped name and its `to_int_any` copper |
| ZoneMatch.FirstKeywordRule | raid_log_filter.py:40-42 | the loop returns the raid of the first keyword contained in the zone, and nothing exactly when no keyword matches |
| ZoneMatch.MatchZoneRule | raid_log_filter.py:36-54 | keywords first in list order, the aliases only when no keyword matches, nothing when neither does |
| RaidLogFilter.ZoneToRaidKeyword | raid_log_filter.py:40-42 | a zone whose first matching keyword is row `i` maps to that row's raid |
| RaidLogFilter.ZoneToRaid | raid_log_filter.py:35-50 | `zone_to_raid` of the filter: the blank test, then `ZoneMatch.MatchZone` over its keyword and alias tables; stated by `ZoneMatch.MatchZoneRule`, `ZoneToRaidKeyword`, `ZoneToRaidAlias` and `ZoneToRaidBlank` |
| RaidLogFilter.ZoneToRaidAlias | raid_log_filter.py:44-52 | with no keyword match, the first matching alias gives the raid |
| RaidLogFilter.ZoneToRaidBlank | raid_log_filter.py:36-38 | a blank or all-whitespace zone name maps to no raid |
| RaidLogFilter.ExtractZoneOfLine | raid_log_filter.py:57-65 | a `ZONE_INFO:` line with `&`-separated fields names the stripped second field, whatever the other fields are |
| RaidLogFilter.ExtractZoneOfParts | raid_log_filter.py:57-65 | a `ZONE_INFO:` line with at least two `&` fields names the stripped second field |
| RaidLogFilter.ReadZoneLine | raid_log_filter.py:74-78 | the step gives the line's zone mark: no zone, or the zone's raid, or none |
| RaidLogFilter.MarkAt | raid_log_filter.py:121-124 | the mark read for line `i` is that line's mark |
| RaidLogFilter.Detected | raid_log_filter.py:68-85 | the raid list has no duplicates and holds exactly the non-empty raids of zone lines |
| RaidLogFilter.DetectedOrder | raid_log_filter.py:79-83 | raids are listed in order of first appearance |
| RaidLogFilter.DetectRaids | raid_log_filter.py:68-85 | the loop with its `seen` set returns the specified raid list |
| RaidLogFilter.DetectLine | raid_log_filter.py:74-83 | one line's step keeps `seen` equal to the set of listed raids |
| RaidLogFilter.FilterLogToRaid | raid_log_filter.py:115-134 | the count is the number of kept lines; nothing is written exactly when none are kept; otherwise the written text is the kept lines joined |
| RaidLogFilter.FilterLine | raid_log_filter.py:121-127 | one line's step updates `current_raid` on zone lines and keeps the line when the current raid is the selected one |
| RaidLogFilter.KeptAfterZoneLine | raid_log_filter.py:121-127 | a line is kept exactly when the latest zone line at or before it maps to the selected raid |
| RaidLogFilter.DroppedBeforeZoneLine | raid_log_filter.py:117-127 | lines before the first zone line are dropped |
| RaidLogFilter.KeptIndices | raid_log_filter.py:126-127 | the kept positions are increasing and are exactly the positions the rule keeps |
| RaidLogFilter.KeptIsSubsequence | raid_log_filter.py:126-133 | the kept lines are the input lines at the kept positions, in input order |
| RaidLogFilter.CanonicalRaid | raid_log_filter.py:167-181 | a `--raid` name is accepted exactly when it equals a detected raid ignoring case, and is replaced by the first such raid's spelling; the loop is the same lookup as `FirstIgnoringCase` |
| RaidLogFilter.FirstIgnoringCase | raid_log_filter.py:108-110 | a listed raid equal to the name ignoring case with no earlier such raid, or nothing exactly when there is none |
| RaidLogFilter.SelectRaid | raid_log_filter.py:152-192 | no detected raid is an error; with a `--raid` name, the first raid matching it ignoring case is chosen, and the name is an error exactly when none matches; without one, `--interactive` prompts, a single raid is chosen, and several raids are an error |
| RaidLogFilter.InteractiveAnswer | raid_log_filter.py:89-111 | an accepted answer is one of the listed raids; a single raid is taken without asking; a blank answer is not accepted when there are several raids; an in-range number (`"2"`, `" 02"`) picks that raid; any other answer is looked up by name, ignoring case |
| RaidLogFilter.InteractiveNumber | raid_log_filter.py:103-106 | answering a number `k` from 1 to the list length selects the `k`-th raid |
| ThreatLog.Duration | generate_threat_report.py:101-103 | a fight's duration is never negative, and is `end - start` whenever that is not negative |
| ThreatLog.Trunc | generate_threat_report.py:194 | `int(float(x))` truncates toward zero |
| ThreatLog.ParseEntry | generate_threat_report.py:185-200 | an entry is produced exactly when the chunk has five `:` fields and all four numbers parse; it carries the snapshot time, the stripped unit and the parsed fields |
| ThreatLog.ParseEntryOfRecord | generate_threat_report.py:185-198 | a chunk of five colon-free fields with parseable numbers is read back as exactly those values |
| ThreatLog.EntriesOf | generate_threat_report.py:216-220 | every kept entry has the snapshot's time and a non-empty unit |
| ThreatLog.SnapshotOf | generate_threat_report.py:203-229 | a snapshot is produced exactly when the line has at least 6 tab columns, starts with `TWT_THREAT`, has a numeric time, a `TWTv4=` packet and at least one entry; empty guid and name become `UNKNOWN_GUID` and `Unknown Target` |
| ThreatLog.CollectEntries | generate_threat_report.py:216-220 | the loop over the payload's chunks keeps exactly the parsed entries with a unit |
| ThreatLog.ParseSnapshot | generate_threat_report.py:203-229 | the method returns the specified snapshot |
| ThreatLog.TrailingDigits | generate_threat_report.py:14 | the digit run at the end of a text is maximal |
| ThreatLog.PartSortKey | generate_threat_report.py:232-234 | the key is `(part number or 0, name)`; a name without a `.txt` ending gets 0 |
| ThreatLog.PartSortKeyOfDoubleTxt | generate_threat_report.py:14 | a `<prefix>_part<n>.txt.txt` name sorts under part `n` |
| ThreatLog.PartSortKeyWithoutPart | generate_threat_report.py:14 | a name with no `_part` in it, in any case, sorts under part 0 |
| ThreatLog.PartSortKeyOfPartFile | generate_threat_report.py:14 | a file named `<prefix>_part<n>.txt` sorts under `n` |
| ThreatLog.ZoneToRaidBlank | generate_threat_report.py:106-115 | a blank zone name maps to no raid |
| ThreatLog.ZoneToRaid | generate_threat_report.py:106-115 | `zone_to_raid` of the threat report: `ZoneMatch.MatchZone` over its keyword table and the aliases aq20, aq40 in that order; stated by `ZoneMatch.MatchZoneRule` and `ZoneToRaidBlank` |
| ThreatLog.DetectRaidFromLog | generate_threat_report.py:118-131 | the result is the raid of the first zone line that maps to one, and nothing exactly when no line does |
| ThreatLog.InferRaidFromFights | generate_threat_report.py:276-285 | no raid exactly when no boss is fought; otherwise the first raid, in table order, with the most bosses among the targets |
| ThreatLog.BossNames | generate_threat_report.py:28-54 | a known raid has exactly the bosses of its table entry; an unknown raid has no bosses |
| ThreatLog.FightsAgainst | generate_threat_report.py:289 | the kept fights are exactly the fights against a named boss |
| ThreatLog.FightsAgainstCounts | generate_threat_report.py:289 | a fight against a named boss is kept as many times as it occurs, any other fight not at all |
| ThreatLog.FilterToBossFights | generate_threat_report.py:286-289 | an empty boss set keeps every fight; otherwise exactly the fights against a boss are kept |
| ThreatLog.FightsAgainstSorted | generate_threat_report.py:289 | filtering keeps the start-time order |
| ThreatLog.UnknownRaidKeepsAllFights | generate_threat_report.py:286-288 | for a raid without a boss list every fight is kept |
| FightSplit.Keys | generate_threat_report.py:252-254 | the targets, in order of first appearance, without repeats, exactly those of the input |
| FightSplit.OfKey | generate_threat_report.py:253-254 | one target's list holds exactly that target's snapshots |
| FightSplit.GroupByTarget | generate_threat_report.py:252-254 | the grouping loop yields each target's snapshots in input order, with keys in first-appearance order |
| FightSplit.Segments | generate_threat_report.py:258-267 | the runs are non-empty and concatenate back to the sorted group |
| FightSplit.SegmentsWithinGap | generate_threat_report.py:261 | inside a run, no step is longer than `gap_seconds`: a gap equal to the threshold does not split |
| FightSplit.SegmentsCutAtGap | generate_threat_report.py:261-263 | a new run starts only where the step is strictly longer than `gap_seconds` |
| FightSplit.SegmentsSorted | generate_threat_report.py:257-264 | runs cut from a time-ordered list are time-ordered |
| FightSplit.SegmentMember | generate_threat_report.py:264 | every snapshot of a run comes from the group |
| FightSplit.SplitGroup | generate_threat_report.py:258-267 | the loop with `current` and `last_time` returns one fight per run |
| FightSplit.SegmentsStep | generate_threat_report.py:260-265 | one snapshot either extends the current run or, after a long gap, opens a new one |
| FightSplit.Survivors | generate_threat_report.py:269 | a fight survives exactly when it is non-empty, long enough and has enough snapshots |
| FightSplit.SplitFights | generate_threat_report.py:250-271 | the method returns the specified fights |
| FightSplit.AllFights | generate_threat_report.py:255-266 | every fight is a run of one listed target's time-ordered snapshots; `AllFightsComplete` gives the converse |
| FightSplit.AllFightsComplete | generate_threat_report.py:253-266 | every run of every target's time-ordered snapshots becomes a fight |
| FightSplit.SplitFightsComplete | generate_threat_report.py:252-270 | every run that meets both minimums is returned |
| FightSplit.SplitFightsFight | generate_threat_report.py:252-269 | every fight is non-empty, meets both minimums, holds only its target's snapshots from the input, and its consecutive snapshots are between 0 and `gap_seconds` apart |
| FightSplit.RunMembers | generate_threat_report.py:253-264 | a run of one target holds only that target's input snapshots |
| FightSplit.RunOrdered | generate_threat_report.py:257-264 | a run of one target is in time order, with no step longer than `gap_seconds` |
| FightSplit.SplitFightsOrdered | generate_threat_report.py:270 | the fights are ordered by non-decreasing start time |
| UnitStats.Derive | generate_threat_report.py:326-333 | duration and threat done are never negative; tps is 0 with no duration and threat over duration otherwise; the tank ratio is in [0, 1] when tank samples do not exceed samples; avg pct is the mean percent or 0 |
| UnitStats.DeriveValues | generate_threat_report.py:326-333 | duration and threat done are the last-minus-first spans clamped at 0; the tank ratio times the samples is the tank count, and 0 with no samples |
| UnitStats.UnitStatsValues | generate_threat_report.py:326-333 | every unit's figures are those spans and means of its own accumulated samples |
| UnitStats.BuildUnitStats | generate_threat_report.py:292-334 | the nested loops return the specified per-unit figures |
| UnitStats.AddEntry | generate_threat_report.py:296-324 | one entry's step: skipped for units not allowed, else the unit's record updated |
| UnitStats.AddEntries | generate_threat_report.py:295-324 | the entry loop over one snapshot continues the specified scan of all entries seen so far |
| UnitStats.DeriveAll | generate_threat_report.py:326-333 | the derived figures of every unit |
| UnitStats.TankSamples | generate_threat_report.py:323-324 | tank samples never exceed samples |
| UnitStats.ScanSummarizes | generate_threat_report.py:294-324 | the scan has a record exactly for the allowed units with an entry. Each record's first threat is the least threat at the unit's earliest time and its last threat the greatest at its latest time. Its counts and sums are those of the unit's entries. |
| UnitStats.UpdateEarliest | generate_threat_report.py:311-318 | the first-time rule keeps the earliest time and the least threat at that time |
| UnitStats.UpdateLatest | generate_threat_report.py:314-320 | the last-time rule keeps the latest time and the greatest threat at that time |
| UnitStats.UpdateCounts | generate_threat_report.py:321-324 | the counters are the numbers of entries, tank entries and the percent sum |
| UnitStats.UnitStatsFacts | generate_threat_report.py:292-334 | only allowed players with an entry get figures; duration and threat done are non-negative, tps is 0 with no duration, the tank ratio lies in [0, 1]; the values themselves are stated by `UnitStatsValues` |
| UnitStats.HealThreshold | generate_threat_report.py:345 | the healer threshold is `max(10, 2*(tank_abilities + taunts))` |
| UnitStats.ClassifyRoleRule | generate_threat_report.py:337-347 | tank exactly when `taunts >= 2`, or `tank_ratio >= 0.55`, or `tank_abilities >= 8` with `avg_pct >= 60`; otherwise healer exactly when heals reach the threshold; otherwise dps |
| UnitStats.ClassifyRole | generate_threat_report.py:337-347 | `classify_role`: stated by `ClassifyRoleRule`, `AbsentPlayerRole` and `TankMonotone` |
| UnitStats.AbsentPlayerRole | generate_threat_report.py:338 | a player without signals counts as all zeros: tank on the ratio alone, never healer |
| UnitStats.TankMonotone | generate_threat_report.py:343 | a higher percent or tank ratio never turns a tank into another role |
| RaidSummary.BuildRaidSummary | generate_threat_report.py:364-383 | the loop over fights returns the specified roll-up |
| RaidSummary.AddFight | generate_threat_report.py:369-383 | one fight's units are added into their records |
| RaidSummary.SummaryTps | generate_threat_report.py:402 | the weighted tps times total duration is the total threat, and 0 with no duration |
| RaidSummary.MeanInUnit | generate_threat_report.py:404 | the mean of values in [0, 1] lies in [0, 1] |
| RaidSummary.Mean | generate_threat_report.py:403-404 | `mean(xs) if xs else 0.0`: bounded by `MeanInUnit` |
| RaidSummary.SummaryRole | generate_threat_report.py:405 | the summary line's role is `ClassifyRole` of the unit's mean percent and mean tank ratio, so `ClassifyRoleRule` states it |
| RaidSummary.RollUpFacts | generate_threat_report.py:364-383 | a unit has a record exactly when it has figures in some fight; the record counts those fights, sums their threat and duration, and holds the per-fight avg percents and tank ratios in fight order (`PctsOver`, `RatiosOver`), each ratio in [0, 1] |
| RaidSummary.MergeStep | generate_threat_report.py:379-383 | adding one fight increments the count, threat and duration of exactly the units in that fight and appends that fight's avg percent and tank ratio to their lists |
| RaidSummary.SummaryRatioInUnit | generate_threat_report.py:404 | the mean tank ratio on a summary line lies in [0, 1] |

## Left out

- File I/O is not modelled: opening and reading files, `exists()`, globbing, `mkdir`, `write_text`, argparse, `print` and the `try`/`except` blocks around reading. Inputs are sequences of lines or records, and a written file is its text.
- `load_snapshots` (generate_threat_report.py:237-247) is not modelled: it globs and reads the part files. Only its ordering key `part_sort_key` is modelled.
- The regex scrapers `parse_combat_log_for_guilds`, `parse_combat_log_for_pets`, `count_logger_deaths`, `parse_role_signals` and `discord_card.detect_raid_from_log` are not modelled. Their results (members, pets, logger deaths, role signals) are parameters.
- `extract_raid_date_from_log` depends on the clock and `strptime`, and is not modelled.
- HTML assembly, `html.escape`, `fmt_num`, `load_icon_base64` and crop_png_manual.py are presentation only. The per-fight HTML rows of `render_report` and the descending-threat order of their units only affect the page.
- `float()` is a parameter `num` of the threat-log parsers, and its textual grammar is not modelled. Times, threat and percents are exact `real`s, not IEEE doubles.
- ThreatLog.ParseEntry: one parser `num` serves all four numeric fields, so the non-finite cases are not told apart: `int(float("nan"))` in the tank or melee field raises `ValueError` and drops the entry, and `int(float("inf"))` raises `OverflowError`, which the `except ValueError` does not catch, so the script stops (generate_threat_report.py:190-200).
- `statistics.mean` is the exact mean.
- Bar widths are exact rational truncation, `int(value * 520 / max_value)`, not the float product of visualize_consumes.py:27.
- `csv.Sniffer` and `csv.reader` tokenisation are not modelled. Only the fallback of `sniff_delim` is modelled, and records arrive already split into fields.
- The interactive `input()` loop of `choose_raid_interactive` is not modelled. Only its rule for one answer is modelled (`RaidLogFilter.InteractiveAnswer`).
- `str.isspace`, `str.lower`, `str.isdigit` and the regex `\d` are modelled for ASCII letters and digits only; Unicode case mapping and non-ASCII digits are not modelled. `isspace` covers Python's whitespace code points.
- `int()` of text is modelled for ASCII digits, an optional sign, surrounding whitespace and single underscores between digits.
- ThreatLog.ZoneToRaidBlank: the threat report's `zone_to_raid` has no blank-zone test of its own; the lemma holds because no keyword of its table is empty.
- RaidLogFilter.ExtractZoneName: carries no contract of its own; what it returns is stated by `ExtractZoneOfLine` and `ExtractZoneOfParts`.
- DiscordCard.SunderOfLine: carries no contract of its own; what it returns is stated by `SunderOfCounts`, `SunderOfTotal` and `SunderOfShortLine`.
- DiscordCard.CardRow: carries no contract of its own; what it returns is stated by `CardRowRule`.
- Text.ParseInt: carries no contract of its own. The accepted inputs are stated by `ParseIntOfIntToString` and `ParseIntOfAllDigits`, and the rejected ones by `ParseIntAccepts`: text holding a character other than a digit, a sign or an underscore is refused. Misplaced signs and doubled underscores are refused too, but no lemma states that.
