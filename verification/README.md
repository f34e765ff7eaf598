# EPG scrapers: the schedule logic, modelled in Dafny

The repository gathers television programme guides (EPG) from three Taiwanese sources and writes them out:

- **TBC** (`scripts/tbc.py`, `scripts/tbc_epg.py`). Channel and schedule pages of `www.tbc.net.tw` are scraped and written as XMLTV.
  - `tbc.py` uses one HTTP session. It fetches six days and skips the channels numbered 300 to 329.
  - `tbc_epg.py` uses a Cloudflare-aware client first and a headless browser as its fallback. It fetches seven days.
- **Hami Video** (`scripts/Hami.py`). The channel list comes from a layout service. Each channel gets seven daily programme pages, with up to five attempts per channel. The programmes are sorted by start, and a plain-text guide is written.
- **4GTV**:
  - `scripts/Get_Channel.py` and `scripts/fetch_4gtv.py` read the channel API through a browser, drop the blocklisted channels, and publish four-field records.
  - `scripts/Make_EPG.py` reads that published list back, together with each channel's programme list.

The model keeps what these scripts compute and leaves out how they talk to the network:

- Every HTTP answer, browser page and parsed JSON document is a parameter.
- Python's exceptions become `Result`/`Option` values.
- The Python library behaviour the scripts lean on is written out in Dafny:
  - `str.strip`
  - `re.search` for `(\d+:\d+)~(\d+:\d+)`, with `\d` read as the ASCII digits `0` to `9`
  - `datetime.strptime` with its backtracking over field widths and its range checks, over the same ASCII digits
  - `strftime`
  - `date + timedelta` on the proleptic Gregorian ordinal
  - the `OverflowError` of `date + timedelta` past year 9999
  - the `OverflowError` pytz's `localize` raises for a time on 0001-01-01 or 9999-12-31 (`Civil.Localizable`)
  - `list.sort` (stable)
  - `str.split`
  - `in` on strings

Modules:

| module | file | what it holds |
|---|---|---|
| `Outcome` | `outcome.dfy` | `Option`, `Result`, HTTP `Response`, and the skip-on-failure loop `FilterMap` |
| `Text` | `text.dfy` | `strip`, substring test, digits, `str(n)`, `split`, `replace(c, "")` |
| `Civil` | `civil.dfy` | dates, ordinals, `timedelta(days=k)`, date-time order in a fixed +08:00 zone |
| `TimeFormat` | `timefmt.dfy` | `strptime` and `strftime` for the formats the scripts use, and XMLTV stamps |
| `Schedule` | `schedule.dfy` | the programme record shared by all sources |
| `Sorting` | `sort.dfy` | the stable sort `Hami.py` applies |
| `Xmltv` | `xmltv.dfy` | the element tree the TBC writers build, and a reader for it |
| `TbcPage` | `tbcpage.dfy` | what both TBC scrapers read from a page: time ranges, `<p>` text, channel list |
| `Tbc`, `TbcEpg` | `tbc.dfy`, `tbc_epg.dfy` | the two TBC scrapers |
| `Hami` | `hami.dfy` | the Hami Video scraper |
| `FourGtv`, `GetChannel`, `Fetch4gtv`, `MakeEpg` | `fourgtv.dfy`, `get_channel.dfy`, `fetch_4gtv.dfy`, `make_epg.dfy` | the 4GTV channel list and guide |

## Model

| member | source | states |
|---|---|---|
| Outcome.FilterMapMembers | scripts/tbc.py:153-217 | A skip-on-failure loop keeps a value exactly when some element of the input yields it. |
| Outcome.FilterMapOrder | scripts/fetch_4gtv.py:38-52 | The kept values come from strictly increasing positions of the input. Each position yields its value, and every position the step accepts is among them: order is kept and nothing accepted is lost. |
| Outcome.FilterMapCount | scripts/fetch_4gtv.py:38-52 | Kept and skipped elements together account for every element of the input. |
| Outcome.FilterMapTotal | scripts/Make_EPG.py:33-40 | When no element fails, the loop gives one result per element, in order. |
| Text.StripSpec | scripts/tbc.py:156 | `strip()` leaves no whitespace at either end, and what remains is a contiguous cut of the input. |
| Text.StripIdempotent | scripts/tbc.py:188-190 | Stripping a stripped string changes nothing. |
| Text.Contains | scripts/Get_Channel.py:83 | `sub in s` holds exactly when `sub` occurs in `s` at some index. |
| Text.SplitCount | scripts/Hami.py:99 | `split('~')` gives one piece more than there are `~`, so unpacking into two names needs exactly one `~`. |
| Text.SplitJoin | scripts/Hami.py:99 | Splitting a join of separator-free pieces gives the pieces back. |
| Text.Decimal | scripts/tbc.py:51 | `str(n)` is a non-empty digit string whose value is `n`. |
| Civil.FromOrdinal | scripts/tbc.py:58 | `date.fromordinal(n)` gives a valid date whose ordinal is `n`. |
| Civil.FromOrdinalOfOrdinal | scripts/tbc.py:58 | `fromordinal` undoes `toordinal`. |
| Civil.OrdinalMonotone | scripts/tbc.py:57-59 | Ordinals count days in calendar order. |
| Civil.AddDays | scripts/tbc.py:58 | `date + timedelta(days=k)` is a valid date `k` ordinals later. |
| Civil.NextDayIsSuccessor | scripts/tbc.py:178-179 | Adding one day through ordinals lands on the calendar's next day, across month ends, year ends and leap days. |
| Civil.AddDaysStep | scripts/tbc_epg.py:63-65 | Taking `k + 1` days is taking `k` days and then one more. |
| Civil.EarlierIsInstantOrder | scripts/tbc.py:178 | Comparing two naive date-times is comparing the instants they denote. |
| Civil.ShiftDay | scripts/tbc_epg.py:123-124 | `+ timedelta(days=1)` keeps the clock reading and adds 86400 seconds. |
| TimeFormat.Strptime | scripts/Hami.py:100-101 | Whatever `strptime` accepts is a valid date-time in years 1 to 9999. |
| TimeFormat.StrptimeOfStrftimeComplete | scripts/Make_EPG.py:59-66 | A separated format that prints all six fields reads every printable date-time back. |
| TimeFormat.DashSecondRoundTrip | scripts/Hami.py:100-101 | `%Y-%m-%d %H:%M:%S` reads back every date-time it prints. |
| TimeFormat.MatchClock | scripts/tbc.py:174-175 | `%H:%M` consumes `hh:mm` whole exactly when the digits fit a clock (hour at most 23, minute at most 59, each at most two digits), and then takes their values. |
| TimeFormat.SlashMinuteOfDigits | scripts/tbc.py:174-175 | Reading `YYYY/MM/DD hh:mm` gives the day at `hh:mm` when the clock fits, and a `ValueError` otherwise. |
| TimeFormat.ClockRoundTrip | scripts/Hami.py:128 | `%H:%M` prints five characters that read back as the hour and minute. |
| TimeFormat.CompactStampShape | scripts/tbc_epg.py:327-328 | Removing the space from `%Y%m%d%H%M%S %z` leaves the fourteen digits directly followed by `+0800`; the two stamp forms are 20 and 19 characters long. |
| TimeFormat.ReadStampRoundTrip | scripts/tbc.py:323-324 | Both stamp forms the writers emit read back as the date-time they print. |
| Sorting.SortBy | scripts/Hami.py:64 | The sorted list is ordered by the key and is a permutation of the input. |
| Sorting.SortStable | scripts/Hami.py:64 | Programmes with equal start keep their relative order, as Python's sort is stable. |
| Sorting.SortSorted | scripts/Hami.py:64 | Sorting a list already in start order changes nothing. |
| Schedule.ConcatMembers | scripts/Make_EPG.py:13-17 | A programme is in the joined guide exactly when it is in one channel's list. |
| TbcPage.StrippedText | scripts/tbc.py:196 | `get_text(strip=True)` has no whitespace at either end. |
| TbcPage.StrippedTextOfTrimmed | scripts/tbc.py:194-196 | When no text piece has whitespace at its ends, `get_text(strip=True)` is the plain join of the pieces. |
| TbcPage.RangeAtSound | scripts/tbc.py:166 | What the matcher reads at an index is an occurrence of `\d+:\d+~\d+:\d+` there. |
| TbcPage.RangeAtComplete | scripts/tbc.py:166 | Any occurrence of the pattern at an index is found there with the same first three groups and a last group at least as long: `\d+` is greedy. |
| TbcPage.SearchRangeNone | scripts/tbc.py:165-168 | `re.search` finds nothing exactly when no index of the text holds the pattern, `\d` being `0` to `9`. |
| TbcPage.SearchRangeLeftmost | scripts/tbc.py:166 | The match found is at the leftmost index that holds the pattern. |
| TbcPage.SearchRangeOfText | scripts/tbc_epg.py:111-117 | A time attribute that is exactly one `HH:MM~HH:MM` gives back its own four groups. |
| TbcPage.InDecimals | scripts/tbc.py:51 | An id is in `[str(i) for i in range(lo, hi)]` exactly when it is three digits with no leading zero and its value lies in the range. So `"0300"` or `" 300"` is not skipped. |
| TbcPage.MapChannelsSpec | scripts/tbc.py:254-272 | The channel loop builds one record per item with a non-empty stripped title, in order, up to the first such item whose `<a>` lacks `href`. |
| TbcPage.MapChannelsFails | scripts/tbc.py:267 | The loop raises exactly when some named item has an `<a>` without `href`. |
| TbcPage.MapChannelsWellFormed | scripts/tbc_epg.py:230-247 | Every record has a non-empty stripped name, exactly one id, source `tbc`, empty description and category `海外`. |
| Tbc.GetChannelsSpec | scripts/tbc.py:224-279 | Without a 200 there are no channels. Otherwise there is one record per named item before the first link without `href`, each carrying its name under `channelName` too. |
| Tbc.ParseItemFacts | scripts/tbc.py:153-217 | A kept item starts on the requested day at second 0 and ends after it, at most 24 hours later. It has a non-empty stripped title and carries the channel's id and name. |
| Tbc.ParseItemOfClock | scripts/tbc.py:156-210 | An item dated for the day, with a fitting `HH:MM~HH:MM` and a title, is kept exactly when `localize` accepts the days its start and end fall on. It is then kept with those clock readings, the end on the next day when its reading is not after the start's (`<=`). |
| Tbc.ItemTimesOfClock | scripts/tbc.py:174-183 | The `strptime` reading equals the direct one: start at the digits' values, and the end moved to the next day when its clock reading is not after the start's (`<=`). |
| Tbc.ParseItemIsDirect | scripts/tbc.py:156-210 | Reading an item through `strptime` and the regular expression agrees with the direct digit reading, for every item. |
| Tbc.TitleTrimmed | scripts/tbc.py:186-196 | The title chain (`data-name` on channels 404 to 420, `title` elsewhere, then the `<p>` text) yields a stripped title. |
| Tbc.GetEpgsSound | scripts/tbc.py:121-222 | Any programme of a channel's page came from a 200 answer and has the facts of a kept item for that day. |
| Tbc.DayProgramsSound | scripts/tbc.py:88-108 | Every programme of one day belongs to a listed channel outside 300 to 329, under that channel's id and name, and starts on that day. |
| Tbc.SkippedNotFetched | scripts/tbc.py:88-98 | What the pages of the skipped channels say cannot change the day's programmes. |
| Tbc.DayProgramsInOrder | scripts/tbc.py:88-108 | One day's programmes are each channel's part one after another, in channel order. A channel numbered 300 to 329 adds nothing; any other adds the programmes of its page for that day. |
| Tbc.DayProgramsComplete | scripts/tbc.py:88-98 | Every channel outside 300 to 329 is fetched: each programme of its page for the day is among the day's programmes. |
| Tbc.CollectInOrder | scripts/tbc.py:57-108 | The programmes over a run of days are the days' lists one after another, in day order. The list at position `i` is fetched as day `k + i`. |
| Tbc.GetTbcEpgInOrder | scripts/tbc.py:54-108 | With channels and a week inside year 9999, the programmes are the six days' lists one after another. Day `d` is `today + d`, and its pages are requested as day `d`. |
| Tbc.GetTbcEpgComplete | scripts/tbc.py:57-108 | When collection succeeds, every programme of a non-skipped channel's page for any of the six days is among the collected programmes. |
| Tbc.GetTbcEpgSound | scripts/tbc.py:40-119 | No channels gives `([], [])`. Only a week running past year 9999 raises. Otherwise the channels come back unchanged, and every programme starts within the six days and belongs to a non-skipped channel. |
| Tbc.GroupedMembers | scripts/tbc.py:292-319 | A listing is in the guide exactly when some listed channel's id is some programme's channel id, and the listing is that programme under that id. |
| Tbc.ReadProgrammeElement | scripts/tbc.py:321-334 | A `programme` element reads back as its channel, start, stop, title (`未知節目` when empty) and description. |
| Tbc.ReadChannelElement | scripts/tbc.py:305-315 | A `channel` element reads back as the channel's id, name and logo when there is one. |
| Tbc.GenerateXmltvListings | scripts/tbc.py:292-334 | The guide lists, for each channel in turn, the programmes carrying its id, in collection order. |
| Tbc.GenerateXmltvChannels | scripts/tbc.py:300-315 | The guide's channels are the given channels, one entry each, in order. |
| Tbc.MainSound | scripts/tbc.py:348-381 | The output file is left alone only when the week overflows and a file already exists. Every listing written belongs to a listed channel outside 300 to 329 and starts within the six days. |
| TbcEpg.DayItemsSpec | scripts/tbc_epg.py:97-105 | The day's items are found exactly when a heading with the date string precedes some list. They are the items of the first list after the first such heading. |
| TbcEpg.ReadItemFacts | scripts/tbc_epg.py:110-139 | A kept item starts on the day at second 0 and ends at most 24 hours later, possibly at the same instant. It has a stripped title, the channel's id and the item's own `channelname`. |
| TbcEpg.ReadItemOfClock | scripts/tbc_epg.py:117-128 | A fitting `HH:MM~HH:MM` is kept exactly when `localize` accepts the days of both ends; otherwise it raises `OverflowError`. A kept item has those clock readings, and the end moves to the next day exactly when its reading is before the start's (`<`). |
| TbcEpg.ReadItemIsDirect | scripts/tbc_epg.py:111-139 | The `strptime` reading of an item agrees with the direct digit reading, for every item. This includes the `ValueError` outcome and the `OverflowError` of an end past year 9999 or of `localize` on 0001-01-01 or 9999-12-31. |
| TbcEpg.PageTitleTrimmed | scripts/tbc_epg.py:130 | The title, `<p>` text stripped or `無標題`, is a stripped string. |
| TbcEpg.RunSpec | scripts/tbc_epg.py:110-141 | The item loop keeps the programmes of the items before the first one that stops it, and reports whether one did. An `OverflowError` always stops it; a `ValueError` stops only the browser loop. |
| TbcEpg.LenientRunComplete | scripts/tbc_epg.py:140-141 | The client loop reads every item when none overflows. |
| TbcEpg.GetEpgsSound | scripts/tbc_epg.py:80-212 | Every programme of a channel and day was read from some item for that day, by the client or the browser. It starts on the day under the channel's id and lasts under 24 hours. |
| TbcEpg.GetEpgsOfClient | scripts/tbc_epg.py:85-141 | With a 200 answer, a list for the day and no overflowing item, the result is the client's items read in order, and the browser is never consulted. |
| TbcEpg.FallbackRepeats | scripts/tbc_epg.py:143-207 | When the client's loop overflows and the browser sees the same page, the programmes read before the overflow appear twice. |
| TbcEpg.DayProgramsSound | scripts/tbc_epg.py:67-76 | Every programme of one day belongs to a listed channel and starts on that day. |
| TbcEpg.DayProgramsInOrder | scripts/tbc_epg.py:67-74 | One day's programmes are each channel's page programmes one after another, in channel order. |
| TbcEpg.DayProgramsComplete | scripts/tbc_epg.py:67-74 | Every channel is fetched: each programme of its page for the day is among the day's programmes. |
| TbcEpg.CollectInOrder | scripts/tbc_epg.py:63-74 | The programmes over a run of days are the days' lists one after another, in day order. The list at position `i` is fetched as day `k + i`. |
| TbcEpg.GetTbcEpgInOrder | scripts/tbc_epg.py:63-74 | With channels and a week inside year 9999, the fetches run day by day over all channels within each day. The programmes are the seven days' lists one after another, day `d` being `today + d`. |
| TbcEpg.GetTbcEpgComplete | scripts/tbc_epg.py:63-78 | When collection succeeds, every programme of every channel's page for any of the seven days is among the collected programmes. |
| TbcEpg.GetTbcEpgSound | scripts/tbc_epg.py:52-78 | No channels gives `([], [])`. Only a week running past year 9999 raises. Otherwise the channels come back unchanged, and every programme starts within the seven days under a listed channel's id. |
| TbcEpg.GetChannelsSpec | scripts/tbc_epg.py:214-303 | The client's list is used when the status is 200 and its loop finishes with a named item. Otherwise, if the browser's loop finishes over some items, the result is the client's named items before its failing link, followed by all the browser's named items. The client contributes nothing when its status is not 200, or when its loop finished without a named item. If neither loop succeeds there are no channels. Records never carry `channelName`. |
| TbcEpg.ProgrammeElementsSpec | scripts/tbc_epg.py:325-334 | Writing the programmes raises (`KeyError`) exactly when one lacks a channel id; otherwise it gives one element per programme, in order. |
| TbcEpg.ReadProgrammeElement | scripts/tbc_epg.py:325-341 | A `programme` element reads back as its channel, compact start and stop, title, and a description only when it is non-empty. |
| TbcEpg.ReadChannelElement | scripts/tbc_epg.py:316-322 | A `channel` element reads back as the channel's id, name and logo when there is one. |
| TbcEpg.GenerateXmltvSpec | scripts/tbc_epg.py:305-341 | The guide's channels are the given channels in order, followed by one listing per programme in collection order, ungrouped. |
| TbcEpg.MainSound | scripts/tbc_epg.py:354-362 | A guide is written unless the week overflows. It lists the channels, and every listing belongs to one of them and starts within the seven days. |
| TbcEpg.MainListing | scripts/tbc_epg.py:361-362 | Programmes collected by `get_tbc_epg` always carry a channel id, so writing them never raises. |
| Hami.ListElementsSpec | scripts/Hami.py:27-32 | The block scan stops at the first block titled `頻道一覽` or without a title. A missing title or missing `elements` raises; no such block gives no elements. |
| Hami.ChannelRecordsSpec | scripts/Hami.py:33-34 | The records are the elements' `title` and `contentPk`, one per element and in order. One element missing a key raises for the whole list. |
| Hami.RequestChannelListSpec | scripts/Hami.py:14-35 | A non-200 answer or a layout without the channel block gives no channels. Otherwise every element of the first channel block gives one channel, in order. |
| Hami.HamiTime | scripts/Hami.py:98-105 | Any range that reads gives two printable date-times on days `localize` accepts. |
| Hami.HamiTimeRoundTrip | scripts/Hami.py:98-105 | A `start~end` range as the service writes it reads back as its two date-times. When either falls on 0001-01-01 or 9999-12-31, `localize` raises `OverflowError` instead. |
| Hami.HamiTimeSeparator | scripts/Hami.py:99 | A range that reads holds exactly one `~`. |
| Hami.ElementPrograms | scripts/Hami.py:85-94 | An element gives at most one programme, with printable times on days `localize` accepts, no channel id and an empty description. |
| Hami.ElementProgramsOfElement | scripts/Hami.py:86-94 | Reading the element the service writes for a programme gives that programme back. When it starts or ends on 0001-01-01 or 9999-12-31, `localize` raises `OverflowError` instead. |
| Hami.GatherOk | scripts/Hami.py:81-94 | Reading a run of pages or elements succeeds exactly when each step does, and then gives their programmes joined in order. |
| Hami.GatherRaised | scripts/Hami.py:81-94 | When reading raises, it raises what the first failing step raised, and every earlier step succeeded. |
| Hami.RequestEpgSpec | scripts/Hami.py:69-96 | `request_epg` succeeds exactly when each of the seven days does. A day succeeds when its date `datetime.now() + timedelta(days=i)` stays within year 9999 and its page reads; a non-200 page adds nothing. The request then gives the days' programmes in day order. |
| Hami.RequestEpgOverflow | scripts/Hami.py:73-74 | Once the last day's date would pass year 9999, the request raises. |
| Hami.GetProgramsWithRetry | scripts/Hami.py:37-54 | At most five attempts with one sleep between two. Every attempt but the last raised. The last one's programmes are returned; if it raised too, there were five attempts and the result is empty. |
| Hami.RetryFrom | scripts/Hami.py:41-54 | What the retries give is either nothing or exactly what some attempt returned. |
| Hami.StoreLast | scripts/Hami.py:60-65 | A channel with programmes and no later namesake with programmes ends up stored under its name, sorted by start. |
| Hami.StoreUntouched | scripts/Hami.py:60-65 | A name under which no channel got programmes keeps its earlier entry, or its absence. |
| Hami.StoreEntry | scripts/Hami.py:56-67 | A name has an entry exactly when some channel of that name got programmes, and the entry is the last such channel's programmes, sorted. |
| Hami.RequestAllEpgEntry | scripts/Hami.py:56-67 | Each entry is a permutation of some channel's fetched programmes, in start order with equal starts kept in order. Only names whose channel got programmes have entries. |
| Hami.ProgramLineRead | scripts/Hami.py:126-130 | A programme line is the five-character `%H:%M` of the start, one space and the title. The clock reads back as the start's hour and minute. |
| Hami.EpgLinesBlock | scripts/Hami.py:119-130 | Each listed channel has its block at its place: its name, then one line per stored programme. |
| Hami.MainOutput | scripts/Hami.py:135-141 | The guide is written exactly when the channel list does not raise. |
| Hami.MainBlock | scripts/Hami.py:135-141 | Each listed channel's block in the written guide holds its stored programmes in start order. |
| FourGtv.BlockedSpec | scripts/Get_Channel.py:11-15 | A name is blocked whenever a blocked string occurs anywhere in it; the empty name is never blocked. |
| FourGtv.ExtractSpec | scripts/fetch_4gtv.py:38-52 | The extraction succeeds exactly when every element is an object with a string or missing `fsNAME`. The records are then the unblocked elements' fields in input order, none blocked, with nothing unblocked lost. Records and skipped channels together count every element. |
| FourGtv.NamelessKept | scripts/fetch_4gtv.py:40-52 | A channel without `fsNAME` is kept, under the empty name. |
| GetChannel.RunSpec | scripts/Get_Channel.py:53-103 | Only a `Data` list gets past the shape check. The reported count is the number of records, which is the channels less the blocked ones. A source that does not look like JSON is read from its `<pre>` alone, and one that does from itself alone. |
| Fetch4gtv.MissingDataDiffers | scripts/fetch_4gtv.py:39 | For a JSON object without `Data`, this script writes an empty list, while `Get_Channel.py` exits (its lines 73-75). |
| Fetch4gtv.RunSpec | scripts/fetch_4gtv.py:28-62 | A page holding `<!DOCTYPE html>` anywhere is refused whatever it parses to. Otherwise a `Data` list gives the filtered records and their count. |
| MakeEpg.GetChannelsSpec | scripts/Make_EPG.py:21-44 | Either every record reads and each gives its channel in order, or one record fails and there are no channels at all. |
| MakeEpg.ChannelsOfWritten | scripts/Make_EPG.py:33-39 | The list the channel scripts publish reads back record for record. A description absent there comes back as `null`, not as `""`. |
| MakeEpg.ProgramOf | scripts/Make_EPG.py:58-78 | A programme that reads has printable times on days `localize` accepts, the channel's name, no id and an empty description. |
| MakeEpg.GetProgramsSpec | scripts/Make_EPG.py:46-84 | All or nothing: one item that does not read empties the channel's list; otherwise each item gives its programme in order. |
| MakeEpg.ProgramOfItem | scripts/Make_EPG.py:58-78 | An item written for a programme (date and clock fields `%Y-%m-%d` and `%H:%M:%S`) reads back as that programme. When the programme starts or ends on 0001-01-01 or 9999-12-31, `localize` raises and the item does not read. |
| MakeEpg.GetEpgSpec | scripts/Make_EPG.py:8-19 | A programme is in the guide exactly when it is in some channel's list. It is then listed under that channel's name, with printable times. |

## Where the model follows the code

- `tbc.py` says it fetches "today and the next 6 days" (line 53), but `total_days = 6` fetches six days. The model fetches six (`Tbc.Days`); `tbc_epg.py` fetches seven.
- The two TBC scrapers move a programme's end to the next day under different tests:
  - `tbc.py` uses `end <= start`, so an item whose start equals its end becomes a 24-hour programme.
  - `tbc_epg.py` uses `end < start`, so such an item keeps zero length.
- `tbc_epg.py`'s browser fallback does not parse items by the same rules as its client path. Its loop has no `except ValueError`, so one bad clock reading ends the day's list, keeping what was read before it.
- The fallback keeps what the client loop read before it failed, so those programmes can appear twice (`TbcEpg.FallbackRepeats`).
- `Make_EPG.py` does not turn a missing description into `""` when the record exists with a `null` description, which is how both channel scripts write an absent one. The model keeps the `null`.
- pytz's `localize` for Asia/Taipei looks one day before and one day after the time, so it raises `OverflowError` for any time on 0001-01-01 or 9999-12-31 (`Civil.Localizable`). Each reader follows its own handler:
  - `tbc.py` drops the item.
  - `tbc_epg.py` ends the loop.
  - `Hami.py` fails the attempt and retries the channel.
  - `Make_EPG.py` empties the channel's list.
- The two 4GTV channel scripts differ on a JSON object without `Data` (`Fetch4gtv.MissingDataDiffers`):
  - `fetch_4gtv.py` writes an empty list.
  - `Get_Channel.py` exits with status 1.

## Left out

- HTTP requests, Cloudflare handling, the browser, cookies and `create_session_with_retry`. Each answer is a parameter: a status and a parsed body, or an unreachable host.
- HTML and JSON parsing. Pages are given as the attributes and text the scripts read (`ScheduleItem`, `ChannelItem`, the heading and list siblings); JSON as the values the scripts look at.
- `datetime.now()`. Today's date is a parameter; for `Hami.py`, the date at each day of each attempt is (`Hami.Clock`).
- pytz beyond `localize`'s range. Every time is Asia/Taipei at a fixed +08:00 with no daylight saving. So the `%z` of a time before 1896, which pytz gives in local mean time (+0806), is not modelled.
- `asyncio.gather`, `asyncio.sleep` and the random start delay. `tbc.py` gathers its tasks with `return_exceptions=True`, and `get_epgs_tbc` catches everything itself, so the order and concurrency do not change the result. Hami's sleeps are counted, not timed.
- Logging, printing, file names, directories and `exists` checks beyond the one `tbc.py` uses to decide whether to write.
- XML serialisation. ElementTree escaping and minidom's pretty-printing are not modelled; the guide is the element tree, checked through a reader of its `channel` and `programme` elements.
- The `url` field of TBC channel records is kept but never used by the writers.
- `fetch_cookie.py` is not part of this model.
- TbcPage.SearchRangeNone: `\d` is read as the ASCII digits `0` to `9`, although Python's `\d` also matches other Unicode decimal digits, such as the fullwidth `２`. So the model finds no match in a time attribute like `1２:0０~1３:0０`, from which `tbc.py` would keep a 12:00 to 13:00 programme. Such digits are assumed absent from the pages.
- Text.IsDigit: only `0` to `9` are digits, in the `strptime` fields and in `int()` as in the pattern. Python accepts any Unicode decimal digit there. An item like `１２:００~１３:００` matches Python's pattern and then makes `strptime` raise `ValueError`. That ends the day's list in `tbc_epg.py`'s browser loop; the model skips the item and reads on.
- FourGtv.ExtractSpec: an `fsNAME` that is a JSON list or object is treated as raising, although Python's `in` would test membership there. A string, `null`, a number or a boolean is modelled as the script treats it.
- MakeEpg.ProgramOf: `programName` and `channelName` are kept as the text `str()` gives for the JSON value, not as the raw value, so a non-string title or name is not told apart from its printed form.
- Hami.RequestChannelListSpec: a JSON body whose shape differs from what the script indexes (say `UIInfo` not a list) is folded into "reading the body raises".
- TimeFormat.Strftime: `%Y` is printed zero-padded to four digits. Python hands `%Y` to the C library, and glibc prints years below 1000 without padding, so dates before year 1000 print differently on Linux.
- TimeFormat.CompactStampShape: the fourteen-digit stamp assumes a four-digit year; on glibc a year below 1000 gives a shorter stamp.
