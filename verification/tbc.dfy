/** `scripts/tbc.py`: the TBC channel list, one channel's programmes for one day, and
    the six-day collection over every channel outside the skipped range. */
module Tbc {
  import opened Outcome
  import opened Text
  import opened Civil
  import opened TimeFormat
  import opened Schedule
  import opened TbcPage
  import opened Xmltv

  /** The number of days fetched, today included (`range(6)`). */
  const Days: nat := 6

  /** The channel list: nothing unless the page came back with status 200; otherwise
      the records the loop built, up to a failing `href` lookup. */
  function GetChannels(resp: Response<seq<ChannelItem>>): seq<TbcChannel>
  {
    if resp.IsOk() then MapChannels(resp.body, true).0 else []
  }

  /** The channel list holds one record per named item before the first item whose
      link lacks `href`, each carrying its name twice, and nothing without a 200. */
  lemma GetChannelsSpec(resp: Response<seq<ChannelItem>>)
    ensures !resp.IsOk() ==> GetChannels(resp) == []
    ensures resp.IsOk() ==> GetChannels(resp) == Records(Named(BeforeBreak(resp.body)), true)
    ensures forall c :: c in GetChannels(resp) ==> WellFormed(c) && c.channelName == Some(c.name)
  {
    if resp.IsOk() {
      MapChannelsSpec(resp.body, true);
      MapChannelsWellFormed(resp.body, true);
      ListedNames(Named(BeforeBreak(resp.body)));
    }
  }

  lemma {:induction false} ListedNames(items: seq<ChannelItem>)
    ensures forall c :: c in Records(items, true) ==> c.channelName == Some(c.name)
  {
    if |items| > 0 {
      ListedNames(items[1..]);
    }
  }

  /** The title of an item: its `data-name` on the channels numbered 404 to 420 and
      its `title` elsewhere, stripped; when that is empty, the stripped text of its
      first `<p>`. */
  function ItemTitle(li: ScheduleItem, channelId: string): string
  {
    var attr := Strip(OrEmpty(if channelId in SpecialIds then li.dataName else li.title));
    if attr != "" then attr
    else
      match li.para
      case None => ""
      case Some(pieces) => StrippedText(pieces)
  }

  /** The start and end an item's `HH:MM~HH:MM` gives on `date`: both clock readings
      parsed with the date, the end moved one day on when it is not after the start.
      Nothing when that moves it past year 9999, or when `localize` raises on either
      end's day. */
  function ItemTimes(date: string, m: TimeRange): Option<(DateTime, DateTime)>
  {
    match ReadClock(date, m.startHour, m.startMinute)
    case None => None
    case Some(start) =>
      match ReadClock(date, m.endHour, m.endMinute)
      case None => None
      case Some(end0) =>
        var end := if Earlier(start, end0) then end0 else ShiftDay(end0);
        if Localizable(start.date) && Localizable(end.date) then Some((start, end)) else None
  }

  /** One `<li>` of channel `channelId`'s page read for `day`: kept only when its
      `date` is the day's `YYYY/MM/DD`, its `time` holds `HH:MM~HH:MM` whose times
      parse, and it has a title. */
  function ParseItem(li: ScheduleItem, day: Date, channelId: string, channelName: string): Option<Program>
    requires InRange(day)
  {
    var date := Strip(OrEmpty(li.date));
    if date == "" || date != SlashDate(day) then None
    else
      match SearchRange(Strip(OrEmpty(li.time)))
      case None => None
      case Some(m) =>
        match ItemTimes(date, m)
        case None => None
        case Some((start, end)) => Titled(li, channelId, channelName, start, end)
  }

  /** The programme of an item with its times read: nothing when it has no title. */
  function Titled(li: ScheduleItem, channelId: string, channelName: string, start: DateTime, end: DateTime): Option<Program>
  {
    var title := ItemTitle(li, channelId);
    if title == "" then None
    else Some(Program(Some(channelId), channelName, title, Strip(OrEmpty(li.desc)), start, end))
  }

  /** The same times read without `strptime`: the clock digits taken at their value
      when they fit a clock, the end on the next day when its clock reading is not
      after the start's. */
  function ClockTimes(day: Date, m: TimeRange): Option<(DateTime, DateTime)>
    requires InRange(day) && m.Digits()
  {
    if !ClockFits(m.startHour, m.startMinute) || !ClockFits(m.endHour, m.endMinute) then None
    else
      var endDay := if ClockMinutes(m.endHour, m.endMinute) <= ClockMinutes(m.startHour, m.startMinute)
                    then NextDay(day) else day;
      if !Localizable(day) || !Localizable(endDay) then None
      else Some((DateTime(day, Value(m.startHour), Value(m.startMinute), 0),
                 DateTime(endDay, Value(m.endHour), Value(m.endMinute), 0)))
  }

  /** The item read through `ClockTimes` instead of `strptime`. */
  function DirectItem(li: ScheduleItem, day: Date, channelId: string, channelName: string): Option<Program>
    requires InRange(day)
  {
    if Strip(OrEmpty(li.date)) != SlashDate(day) then None
    else
      var text := Strip(OrEmpty(li.time));
      SearchRangeDigits(text);
      match SearchRange(text)
      case None => None
      case Some(m) =>
        match ClockTimes(day, m)
        case None => None
        case Some((start, end)) => Titled(li, channelId, channelName, start, end)
  }

  lemma SlashDateNotEmpty(day: Date)
    requires InRange(day)
    ensures SlashDate(day) != ""
  {
    StrftimeAppend(SlashDateFormat[..1], SlashDateFormat[1..], Midnight(day));
    assert SlashDateFormat == SlashDateFormat[..1] + SlashDateFormat[1..];
  }

  /** Reading the clock through `strptime` on the day's own date is reading its
      digits. */
  lemma ItemTimesOfClock(day: Date, m: TimeRange)
    requires InRange(day) && m.Digits()
    ensures ItemTimes(SlashDate(day), m) == ClockTimes(day, m)
  {
    SlashMinuteOfDigits(day, m.startHour, m.startMinute);
    SlashMinuteOfDigits(day, m.endHour, m.endMinute);
    if ClockFits(m.startHour, m.startMinute) && ClockFits(m.endHour, m.endMinute) {
      var start := DateTime(day, Value(m.startHour), Value(m.startMinute), 0);
      var end0 := DateTime(day, Value(m.endHour), Value(m.endMinute), 0);
      EarlierIsInstantOrder(start, end0);
    }
  }

  lemma ParseItemIsDirect(li: ScheduleItem, day: Date, channelId: string, channelName: string)
    requires InRange(day)
    ensures ParseItem(li, day, channelId, channelName) == DirectItem(li, day, channelId, channelName)
  {
    SlashDateNotEmpty(day);
    var text := Strip(OrEmpty(li.time));
    SearchRangeDigits(text);
    if Strip(OrEmpty(li.date)) == SlashDate(day) && SearchRange(text).Some? {
      ItemTimesOfClock(day, SearchRange(text).value);
    }
  }

  /** What every kept item satisfies: it starts on the day read, on the minute, ends
      after it starts and at most a day later, and has a title without surrounding
      whitespace. */
  lemma ParseItemFacts(li: ScheduleItem, day: Date, channelId: string, channelName: string)
    requires InRange(day)
    ensures var r := ParseItem(li, day, channelId, channelName);
      r.Some? ==>
        && Timed(r.value)
        && r.value.start.date == day && r.value.start.second == 0
        && 0 < Instant(r.value.end) - Instant(r.value.start) <= SecondsPerDay
        && r.value.title != "" && Strip(r.value.title) == r.value.title
        && r.value.channelId == Some(channelId) && r.value.channelName == channelName
  {
    ParseItemIsDirect(li, day, channelId, channelName);
    var text := Strip(OrEmpty(li.time));
    SearchRangeDigits(text);
    if DirectItem(li, day, channelId, channelName).Some? {
      ClockTimesFacts(day, SearchRange(text).value);
      TitleTrimmed(li, channelId);
    }
  }

  /** Times read from clock digits start on the day, end after the start and at most
      a day later. */
  lemma ClockTimesFacts(day: Date, m: TimeRange)
    requires InRange(day) && m.Digits()
    ensures ClockTimes(day, m).Some? ==>
      var (start, end) := ClockTimes(day, m).value;
      && Printable(start) && Printable(end)
      && start.date == day && start.second == 0
      && 0 < Instant(end) - Instant(start) <= SecondsPerDay
  {
    if ClockTimes(day, m).Some? {
      var (start, end) := ClockTimes(day, m).value;
      if end.date != day {
        assert Ordinal(end.date) == Ordinal(day) + 1;
        InRangeBefore(day, end.date);
      }
    }
  }

  lemma TitleTrimmed(li: ScheduleItem, channelId: string)
    ensures Strip(ItemTitle(li, channelId)) == ItemTitle(li, channelId)
  {
    var raw := OrEmpty(if channelId in SpecialIds then li.dataName else li.title);
    StripIdempotent(raw);
    if Strip(raw) == "" && li.para.Some? {
      StripTrimmed(StrippedText(li.para.value));
    }
  }

  /** An item whose `time` is exactly `sh:sm~eh:em` with clock digits, dated the day
      read and titled, is kept exactly when `localize` accepts both ends' days, and
      then with exactly those clock readings, the end on the next day when its
      reading is not after the start's. */
  lemma ParseItemOfClock(li: ScheduleItem, day: Date, channelId: string, channelName: string, r: TimeRange)
    requires InRange(day) && r.Digits()
    requires Strip(OrEmpty(li.date)) == SlashDate(day) && Strip(OrEmpty(li.time)) == r.Text()
    requires ClockFits(r.startHour, r.startMinute) && ClockFits(r.endHour, r.endMinute)
    requires ItemTitle(li, channelId) != ""
    ensures var endDay := if ClockMinutes(r.endHour, r.endMinute) <= ClockMinutes(r.startHour, r.startMinute)
                          then NextDay(day) else day;
      var p := ParseItem(li, day, channelId, channelName);
      && (p.Some? <==> Localizable(day) && Localizable(endDay))
      && (p.Some? ==>
            && p.value.start == DateTime(day, Value(r.startHour), Value(r.startMinute), 0)
            && p.value.end == DateTime(endDay, Value(r.endHour), Value(r.endMinute), 0)
            && p.value.title == ItemTitle(li, channelId))
  {
    ParseItemIsDirect(li, day, channelId, channelName);
    SearchRangeOfText(r);
    assert SearchRange(Strip(OrEmpty(li.time))) == Some(r);
    ClockTimesOfFit(day, r);
  }

  lemma ClockTimesOfFit(day: Date, r: TimeRange)
    requires InRange(day) && r.Digits()
    requires ClockFits(r.startHour, r.startMinute) && ClockFits(r.endHour, r.endMinute)
    ensures var endDay := if ClockMinutes(r.endHour, r.endMinute) <= ClockMinutes(r.startHour, r.startMinute)
                          then NextDay(day) else day;
      var t := ClockTimes(day, r);
      && (t.Some? <==> Localizable(day) && Localizable(endDay))
      && (t.Some? ==> t.value == (DateTime(day, Value(r.startHour), Value(r.startMinute), 0),
                                  DateTime(endDay, Value(r.endHour), Value(r.endMinute), 0)))
  {
  }

  /** The `<li>` items of every `ul.list_program2` list, in page order. */
  function Flatten(uls: seq<seq<ScheduleItem>>): seq<ScheduleItem>
  {
    if |uls| == 0 then [] else uls[0] + Flatten(uls[1..])
  }

  /** The kept items, in order. */
  function ParseItems(items: seq<ScheduleItem>, day: Date, channelId: string, channelName: string): seq<Program>
    requires InRange(day)
  {
    FilterMap(items, li => ParseItem(li, day, channelId, channelName))
  }

  /** One channel's programmes for `day`: nothing unless the page came back with
      status 200, then every list item read in page order. */
  function GetEpgs(resp: Response<seq<seq<ScheduleItem>>>, day: Date, channelId: string, channelName: string): seq<Program>
    requires InRange(day)
  {
    if resp.IsOk() then ParseItems(Flatten(resp.body), day, channelId, channelName) else []
  }

  /** Every programme of one page was read from one of its items for that day. */
  lemma GetEpgsSound(resp: Response<seq<seq<ScheduleItem>>>, day: Date, channelId: string, channelName: string, p: Program)
    requires InRange(day)
    requires p in GetEpgs(resp, day, channelId, channelName)
    ensures resp.IsOk()
    ensures p.channelId == Some(channelId) && p.channelName == channelName && p.start.date == day
    ensures Timed(p) && 0 < Instant(p.end) - Instant(p.start) <= SecondsPerDay
  {
    var items := Flatten(resp.body);
    FilterMapMembers(items, li => ParseItem(li, day, channelId, channelName), p);
    var i :| 0 <= i < |items| && ParseItem(items[i], day, channelId, channelName) == Some(p);
    ParseItemFacts(items[i], day, channelId, channelName);
  }

  /** What one channel adds to a day: nothing for a channel numbered 300 to 329, the
      programmes of its page otherwise. `fetch(id, k)` is the page of channel `id`
      requested on day `k`. */
  function ChannelDay(c: TbcChannel, day: Date, k: nat,
                      fetch: (string, nat) -> Response<seq<seq<ScheduleItem>>>): seq<Program>
    requires InRange(day)
  {
    if IdOf(c) in SkipIds then [] else GetEpgs(fetch(IdOf(c), k), day, IdOf(c), c.name)
  }

  /** The programmes of one day over the channels, in channel order, skipping the
      channels numbered 300 to 329. */
  function DayPrograms(channels: seq<TbcChannel>, day: Date, k: nat,
                       fetch: (string, nat) -> Response<seq<seq<ScheduleItem>>>): seq<Program>
    requires InRange(day)
  {
    if |channels| == 0 then []
    else ChannelDay(channels[0], day, k, fetch) + DayPrograms(channels[1..], day, k, fetch)
  }

  /** Each channel's part of one day, indexed like the channels. */
  function ChannelLists(channels: seq<TbcChannel>, day: Date, k: nat,
                        fetch: (string, nat) -> Response<seq<seq<ScheduleItem>>>): seq<seq<Program>>
    requires InRange(day)
  {
    seq(|channels|, i requires 0 <= i < |channels| => ChannelDay(channels[i], day, k, fetch))
  }

  /** The day's programmes are the channels' parts one after another, in channel
      order. */
  lemma {:induction false} DayProgramsInOrder(channels: seq<TbcChannel>, day: Date, k: nat,
                                              fetch: (string, nat) -> Response<seq<seq<ScheduleItem>>>)
    requires InRange(day)
    ensures DayPrograms(channels, day, k, fetch) == Concat(ChannelLists(channels, day, k, fetch))
  {
    if |channels| > 0 {
      DayProgramsInOrder(channels[1..], day, k, fetch);
      assert ChannelLists(channels, day, k, fetch)[1..] == ChannelLists(channels[1..], day, k, fetch);
    }
  }

  /** Every channel outside 300 to 329 has the programmes of its page among the day's. */
  lemma DayProgramsComplete(channels: seq<TbcChannel>, day: Date, k: nat,
                            fetch: (string, nat) -> Response<seq<seq<ScheduleItem>>>, i: nat, p: Program)
    requires InRange(day) && i < |channels|
    ensures IdOf(channels[i]) !in SkipIds && p in GetEpgs(fetch(IdOf(channels[i]), k), day, IdOf(channels[i]), channels[i].name)
      ==> p in DayPrograms(channels, day, k, fetch)
  {
    DayProgramsInOrder(channels, day, k, fetch);
    ConcatMembers(ChannelLists(channels, day, k, fetch), p);
    if IdOf(channels[i]) !in SkipIds
       && p in GetEpgs(fetch(IdOf(channels[i]), k), day, IdOf(channels[i]), channels[i].name) {
      assert p in ChannelLists(channels, day, k, fetch)[i];
    }
  }

  /** The dates fetched: `today + timedelta(days=k)` for `k` in `range(6)`. */
  function Week(today: Date): seq<Date>
    requires ValidDate(today)
  {
    Span(today, Days)
  }

  /** The programmes of `days` fetched one day after another, the first being day `k`
      of the run. */
  function Collect(channels: seq<TbcChannel>, days: seq<Date>, k: nat,
                   fetch: (string, nat) -> Response<seq<seq<ScheduleItem>>>): seq<Program>
    requires forall i :: 0 <= i < |days| ==> InRange(days[i])
  {
    if |days| == 0 then []
    else DayPrograms(channels, days[0], k, fetch) + Collect(channels, days[1..], k + 1, fetch)
  }

  /** A day's programmes as a function of the date and its position in the run. */
  function DayOf(channels: seq<TbcChannel>, fetch: (string, nat) -> Response<seq<seq<ScheduleItem>>>): (Date, nat) --> seq<Program>
  {
    (d: Date, n: nat) requires InRange(d) => DayPrograms(channels, d, n, fetch)
  }

  lemma DayOfApplied(channels: seq<TbcChannel>, day: Date, k: nat, fetch: (string, nat) -> Response<seq<seq<ScheduleItem>>>)
    requires InRange(day)
    ensures DayOf(channels, fetch).requires(day, k) && DayOf(channels, fetch)(day, k) == DayPrograms(channels, day, k, fetch)
  {
  }

  /** The day lists of `days`, day `j` requested as day `k + j` of the run. */
  function DayLists(channels: seq<TbcChannel>, days: seq<Date>, k: nat, fetch: (string, nat) -> Response<seq<seq<ScheduleItem>>>): seq<seq<Program>>
    requires forall i :: 0 <= i < |days| ==> InRange(days[i])
  {
    Numbered(DayOf(channels, fetch), days, k)
  }

  /** The collected programmes are the days' lists one after another, in day order. */
  lemma {:induction false} CollectInOrder(channels: seq<TbcChannel>, days: seq<Date>, k: nat, fetch: (string, nat) -> Response<seq<seq<ScheduleItem>>>)
    requires forall i :: 0 <= i < |days| ==> InRange(days[i])
    ensures Collect(channels, days, k, fetch) == Concat(DayLists(channels, days, k, fetch))
  {
    if |days| > 0 {
      CollectInOrder(channels, days[1..], k + 1, fetch);
      assert DayLists(channels, days, k, fetch)
          == [DayPrograms(channels, days[0], k, fetch)] + DayLists(channels, days[1..], k + 1, fetch);
    }
  }

  /** `get_tbc_epg`: nothing when the channel list is empty; otherwise the channels
      and the programmes of six days from `today`. A date past year 9999 raises
      `OverflowError`. */
  function GetTbcEpg(channels: seq<TbcChannel>, today: Date,
                     fetch: (string, nat) -> Response<seq<seq<ScheduleItem>>>): Result<(seq<TbcChannel>, seq<Program>)>
    requires InRange(today)
  {
    if |channels| == 0 then Ok(([], []))
    else if Week(today)[Days - 1].year > 9999 then Raised("OverflowError")
    else
      SpanInRange(today, Days);
      Ok((channels, Collect(channels, Week(today), 0, fetch)))
  }

  /** The programmes of one day belong to channels outside the skipped range and start
      on that day. */
  lemma {:induction false} DayProgramsSound(channels: seq<TbcChannel>, day: Date, k: nat,
                                            fetch: (string, nat) -> Response<seq<seq<ScheduleItem>>>, p: Program)
    requires InRange(day) && p in DayPrograms(channels, day, k, fetch)
    ensures Timed(p) && p.start.date == day && p.channelId.Some? && p.channelId.value !in SkipIds
    ensures exists c :: c in channels && p.channelId == Some(IdOf(c)) && p.channelName == c.name
  {
    var c := channels[0];
    var head := ChannelDay(c, day, k, fetch);
    if p in head {
      GetEpgsSound(fetch(IdOf(c), k), day, IdOf(c), c.name, p);
    } else {
      DayProgramsSound(channels[1..], day, k, fetch, p);
      var c' :| c' in channels[1..] && p.channelId == Some(IdOf(c')) && p.channelName == c'.name;
      assert c' in channels;
    }
  }

  lemma {:induction false} CollectSound(channels: seq<TbcChannel>, days: seq<Date>, k: nat,
                                        fetch: (string, nat) -> Response<seq<seq<ScheduleItem>>>, p: Program)
    requires forall i :: 0 <= i < |days| ==> InRange(days[i])
    requires p in Collect(channels, days, k, fetch)
    ensures exists i :: 0 <= i < |days| && p.start.date == days[i]
    ensures Timed(p) && p.channelId.Some? && p.channelId.value !in SkipIds
  {
    if p in DayPrograms(channels, days[0], k, fetch) {
      DayProgramsSound(channels, days[0], k, fetch, p);
    } else {
      CollectSound(channels, days[1..], k + 1, fetch, p);
      var i :| 0 <= i < |days[1..]| && p.start.date == days[1..][i];
      assert p.start.date == days[i + 1];
    }
  }

  /** Every programme collected starts on one of the six days from `today` and
      belongs to a channel outside the skipped range; an empty channel list yields
      nothing, and a week reaching past year 9999 raises. */
  lemma GetTbcEpgSound(channels: seq<TbcChannel>, today: Date,
                       fetch: (string, nat) -> Response<seq<seq<ScheduleItem>>>)
    requires InRange(today)
    ensures |channels| == 0 ==> GetTbcEpg(channels, today, fetch) == Ok(([], []))
    ensures GetTbcEpg(channels, today, fetch).Raised? <==> |channels| > 0 && !InRange(AddDays(today, Days - 1))
    ensures GetTbcEpg(channels, today, fetch).Ok? ==>
      var (cs, ps) := GetTbcEpg(channels, today, fetch).value;
      && cs == channels
      && AllTimed(ps)
      && forall p :: p in ps ==>
           && (exists d: nat :: d < Days && p.start.date == AddDays(today, d))
           && p.channelId.Some? && p.channelId.value !in SkipIds
  {
    var week := Week(today);
    assert week[Days - 1] == AddDays(today, Days - 1);
    if |channels| > 0 && week[Days - 1].year <= 9999 {
      SpanInRange(today, Days);
      var ps := Collect(channels, week, 0, fetch);
      forall p | p in ps
        ensures exists d: nat :: d < Days && p.start.date == AddDays(today, d)
        ensures Timed(p) && p.channelId.Some? && p.channelId.value !in SkipIds
      {
        WeekSound(channels, today, fetch, p);
      }
      assert forall i :: 0 <= i < |ps| ==> ps[i] in ps;
    }
  }

  /** With channels and a week inside year 9999, the programmes are the six days'
      lists one after another, day `d` being `today + d` and requested as day `d`. */
  lemma GetTbcEpgInOrder(channels: seq<TbcChannel>, today: Date,
                         fetch: (string, nat) -> Response<seq<seq<ScheduleItem>>>)
    requires InRange(today)
    ensures |channels| > 0 && InRange(AddDays(today, Days - 1)) ==>
      && (forall d :: 0 <= d < Days ==> InRange(Week(today)[d]) && Week(today)[d] == AddDays(today, d))
      && GetTbcEpg(channels, today, fetch) == Ok((channels, Concat(DayLists(channels, Week(today), 0, fetch))))
  {
    if |channels| > 0 && InRange(AddDays(today, Days - 1)) {
      SpanInRange(today, Days);
      CollectInOrder(channels, Week(today), 0, fetch);
    }
  }

  /** Day `d`'s programmes are among the concatenated lists of `days` numbered from 0. */
  lemma DayListsComplete(channels: seq<TbcChannel>, days: seq<Date>, fetch: (string, nat) -> Response<seq<seq<ScheduleItem>>>, d: nat, p: Program)
    requires forall i :: 0 <= i < |days| ==> InRange(days[i])
    requires d < |days|
    ensures p in DayOf(channels, fetch)(days[d], d) ==> p in Concat(DayLists(channels, days, 0, fetch))
  {
    NumberedComplete(DayOf(channels, fetch), days, 0, d, p);
  }

  /** With channels and a week inside year 9999, collection succeeds and keeps every
      programme of day `d`'s list. */
  lemma GetTbcEpgDay(channels: seq<TbcChannel>, today: Date, fetch: (string, nat) -> Response<seq<seq<ScheduleItem>>>, d: nat, p: Program)
    requires InRange(today) && d < Days && |channels| > 0 && InRange(AddDays(today, Days - 1))
    ensures InRange(AddDays(today, d)) && GetTbcEpg(channels, today, fetch).Ok?
    ensures p in DayOf(channels, fetch)(AddDays(today, d), d) ==> p in GetTbcEpg(channels, today, fetch).value.1
  {
    GetTbcEpgInOrder(channels, today, fetch);
    DayListsComplete(channels, Week(today), fetch, d, p);
  }

  /** Every channel outside 300 to 329 has its page for every one of the six days
      collected. */
  lemma GetTbcEpgComplete(channels: seq<TbcChannel>, today: Date,
                          fetch: (string, nat) -> Response<seq<seq<ScheduleItem>>>, d: nat, i: nat, p: Program)
    requires InRange(today) && d < Days && i < |channels|
    ensures GetTbcEpg(channels, today, fetch).Ok? ==>
      && InRange(AddDays(today, d))
      && (IdOf(channels[i]) !in SkipIds
          && p in GetEpgs(fetch(IdOf(channels[i]), d), AddDays(today, d), IdOf(channels[i]), channels[i].name)
          ==> p in GetTbcEpg(channels, today, fetch).value.1)
  {
    assert Week(today)[Days - 1] == AddDays(today, Days - 1);
    if |channels| > 0 && InRange(AddDays(today, Days - 1)) {
      GetTbcEpgDay(channels, today, fetch, d, p);
      DayOfApplied(channels, AddDays(today, d), d, fetch);
      DayProgramsComplete(channels, AddDays(today, d), d, fetch, i, p);
    }
  }

  lemma WeekSound(channels: seq<TbcChannel>, today: Date,
                  fetch: (string, nat) -> Response<seq<seq<ScheduleItem>>>, p: Program)
    requires ValidDate(today) && forall i :: 0 <= i < |Week(today)| ==> InRange(Week(today)[i])
    requires p in Collect(channels, Week(today), 0, fetch)
    ensures exists d: nat :: d < Days && p.start.date == AddDays(today, d)
    ensures Timed(p) && p.channelId.Some? && p.channelId.value !in SkipIds
  {
    var week := Week(today);
    CollectSound(channels, week, 0, fetch, p);
    var i :| 0 <= i < |week| && p.start.date == week[i];
    assert p.start.date == AddDays(today, i);
  }

  /** A skipped channel is never requested: the day's programmes do not depend on what
      its page would hold. */
  lemma {:induction false} SkippedNotFetched(channels: seq<TbcChannel>, day: Date, k: nat,
                                             f: (string, nat) -> Response<seq<seq<ScheduleItem>>>,
                                             g: (string, nat) -> Response<seq<seq<ScheduleItem>>>)
    requires InRange(day)
    requires forall c :: c in channels && IdOf(c) !in SkipIds ==> f(IdOf(c), k) == g(IdOf(c), k)
    ensures DayPrograms(channels, day, k, f) == DayPrograms(channels, day, k, g)
  {
    if |channels| > 0 {
      assert channels[0] in channels;
      assert forall c :: c in channels[1..] ==> c in channels;
      SkippedNotFetched(channels[1..], day, k, f, g);
    }
  }

  /** The title written for a programme without one. */
  const UnknownTitle: string := "未知節目"

  /** The attributes of the document's `tv` root. */
  const RootAttrs: seq<(string, string)> := [("generator-info-name", "tbc_epg"), ("source-info-name", "tbc.net.tw")]

  /** The `channel` element of a channel: its first id, its name in Chinese and, when
      it has a logo, an `icon`. */
  function ChannelElement(c: TbcChannel): Element
  {
    Element("channel", [("id", IdOf(c))], None,
      [Leaf("display-name", [("lang", "zh")], Some(c.name))]
      + (if c.logo != "" then [Leaf("icon", [("src", c.logo)], None)] else []))
  }

  /** The title a programme is written with. */
  function DisplayTitle(p: Program): string
  {
    if p.title != "" then p.title else UnknownTitle
  }

  /** The `programme` element of a programme listed under channel `id`. */
  function ProgrammeElement(id: string, p: Program): Element
    requires Timed(p)
  {
    Element("programme", [("channel", id), ("start", XmltvStamp(p.start)), ("stop", XmltvStamp(p.end))], None,
      [Leaf("title", [("lang", "zh")], Some(DisplayTitle(p))),
       Leaf("desc", [("lang", "zh")], Some(p.description))])
  }

  /** The `programme` elements of the programmes whose channel id is `id`, in the
      order the programmes were collected. */
  function ProgrammesOf(id: string, ps: seq<Program>): seq<Element>
    requires AllTimed(ps)
  {
    if |ps| == 0 then []
    else
      assert forall i :: 0 <= i < |ps| - 1 ==> ps[1..][i] == ps[i + 1];
      (if ps[0].channelId == Some(id) then [ProgrammeElement(id, ps[0])] else []) + ProgrammesOf(id, ps[1..])
  }

  /** The children of the root: each channel's element followed by its programmes. */
  function Body(cs: seq<TbcChannel>, ps: seq<Program>): seq<Element>
    requires AllTimed(ps)
  {
    if |cs| == 0 then []
    else [ChannelElement(cs[0])] + ProgrammesOf(IdOf(cs[0]), ps) + Body(cs[1..], ps)
  }

  /** `generate_xmltv`: the guide of the channels and programmes. */
  function GenerateXmltv(cs: seq<TbcChannel>, ps: seq<Program>): Element
    requires AllTimed(ps)
  {
    Element("tv", RootAttrs, None, Body(cs, ps))
  }

  /** How a guide reader sees programme `p` listed under channel `id`. */
  function ListingOf(id: string, p: Program): Listing
  {
    Listing(id, p.start, p.end, Some(DisplayTitle(p)), Some(p.description))
  }

  /** The listing of a programme when it belongs to channel `id`. */
  function Selects(id: string): Program -> Option<Listing>
  {
    (p: Program) => if p.channelId == Some(id) then Some(ListingOf(id, p)) else None
  }

  /** What a reader should find: for each channel in turn, the programmes carrying its
      id, in collection order. */
  function Grouped(cs: seq<TbcChannel>, ps: seq<Program>): seq<Listing>
  {
    if |cs| == 0 then [] else FilterMap(ps, Selects(IdOf(cs[0]))) + Grouped(cs[1..], ps)
  }

  lemma ReadProgrammeElement(id: string, p: Program)
    requires Timed(p)
    ensures ReadProgramme(ProgrammeElement(id, p)) == Some(ListingOf(id, p))
    ensures ReadChannel(ProgrammeElement(id, p)) == None
  {
    var e := ProgrammeElement(id, p);
    assert Attr(e.attrs, "channel") == Some(id);
    assert Attr(e.attrs, "start") == Some(XmltvStamp(p.start)) by {
      assert e.attrs[1..] == [("start", XmltvStamp(p.start)), ("stop", XmltvStamp(p.end))];
    }
    assert Attr(e.attrs, "stop") == Some(XmltvStamp(p.end)) by {
      var rest := [("stop", XmltvStamp(p.end))];
      assert e.attrs[1..][1..] == rest;
      assert Attr(rest, "stop") == Some(XmltvStamp(p.end));
      assert Attr(e.attrs[1..], "stop") == Attr(rest, "stop");
    }
    ReadStampRoundTrip(p.start);
    ReadStampRoundTrip(p.end);
    assert Find(e.children, "title") == Some(e.children[0]);
    assert Find(e.children, "desc") == Some(e.children[1]) by {
      assert e.children[1..] == [e.children[1]];
    }
  }

  lemma ReadChannelElement(c: TbcChannel)
    ensures ReadChannel(ChannelElement(c)) == Some(EntryOf(c))
    ensures ReadProgramme(ChannelElement(c)) == None
  {
    var e := ChannelElement(c);
    var name := Leaf("display-name", [("lang", "zh")], Some(c.name));
    assert e.children[0] == name;
    assert Find(e.children, "display-name") == Some(name);
    if c.logo != "" {
      var icon := Leaf("icon", [("src", c.logo)], None);
      assert e.children[1..] == [icon];
      assert Find(e.children[1..], "icon") == Some(icon);
      assert Find(e.children, "icon") == Some(icon);
      assert AttrOf(Some(icon), "src") == Some(c.logo);
    } else {
      assert e.children[1..] == [];
      assert Find(e.children, "icon") == None;
    }
  }

  lemma {:induction false} ProgrammesRead(id: string, ps: seq<Program>)
    requires AllTimed(ps)
    ensures FilterMap(ProgrammesOf(id, ps), ReadProgramme) == FilterMap(ps, Selects(id))
    ensures FilterMap(ProgrammesOf(id, ps), ReadChannel) == []
  {
    if |ps| > 0 {
      assert forall i :: 0 <= i < |ps| - 1 ==> ps[1..][i] == ps[i + 1];
      var head := if ps[0].channelId == Some(id) then [ProgrammeElement(id, ps[0])] else [];
      FilterMapAppend(head, ProgrammesOf(id, ps[1..]), ReadProgramme);
      FilterMapAppend(head, ProgrammesOf(id, ps[1..]), ReadChannel);
      ProgrammesRead(id, ps[1..]);
      ReadProgrammeElement(id, ps[0]);
    }
  }

  /** One channel's block: its element and its programmes. */
  lemma BlockRead(c: TbcChannel, ps: seq<Program>)
    requires AllTimed(ps)
    ensures FilterMap([ChannelElement(c)] + ProgrammesOf(IdOf(c), ps), ReadProgramme) == FilterMap(ps, Selects(IdOf(c)))
    ensures FilterMap([ChannelElement(c)] + ProgrammesOf(IdOf(c), ps), ReadChannel) == [EntryOf(c)]
  {
    var progs := ProgrammesOf(IdOf(c), ps);
    FilterMapAppend([ChannelElement(c)], progs, ReadProgramme);
    FilterMapAppend([ChannelElement(c)], progs, ReadChannel);
    ReadChannelElement(c);
    ProgrammesRead(IdOf(c), ps);
  }

  lemma {:induction false} BodyListings(cs: seq<TbcChannel>, ps: seq<Program>)
    requires AllTimed(ps)
    ensures FilterMap(Body(cs, ps), ReadProgramme) == Grouped(cs, ps)
  {
    if |cs| > 0 {
      FilterMapAppend([ChannelElement(cs[0])] + ProgrammesOf(IdOf(cs[0]), ps), Body(cs[1..], ps), ReadProgramme);
      BlockRead(cs[0], ps);
      BodyListings(cs[1..], ps);
    }
  }

  lemma {:induction false} BodyEntries(cs: seq<TbcChannel>, ps: seq<Program>)
    requires AllTimed(ps)
    ensures FilterMap(Body(cs, ps), ReadChannel) == Entries(cs)
  {
    if |cs| > 0 {
      FilterMapAppend([ChannelElement(cs[0])] + ProgrammesOf(IdOf(cs[0]), ps), Body(cs[1..], ps), ReadChannel);
      BlockRead(cs[0], ps);
      BodyEntries(cs[1..], ps);
      assert Entries(cs) == [EntryOf(cs[0])] + Entries(cs[1..]);
    }
  }

  /** The guide read back: its programmes are each channel's programmes in turn, in
      collection order, with the times printed and read back unchanged. */
  lemma GenerateXmltvListings(cs: seq<TbcChannel>, ps: seq<Program>)
    requires AllTimed(ps)
    ensures Listings(GenerateXmltv(cs, ps)) == Grouped(cs, ps)
  {
    BodyListings(cs, ps);
  }

  /** The guide's channels are the channels given, one entry each, in order. */
  lemma GenerateXmltvChannels(cs: seq<TbcChannel>, ps: seq<Program>)
    requires AllTimed(ps)
    ensures |Channels(GenerateXmltv(cs, ps))| == |cs|
    ensures forall i :: 0 <= i < |cs| ==> Channels(GenerateXmltv(cs, ps))[i] == EntryOf(cs[i])
  {
    BodyEntries(cs, ps);
  }

  /** A listing is in the guide exactly when some programme carries the id of some
      channel and reads as that listing: programmes of channels not given are
      dropped. */
  lemma GroupedMembers(cs: seq<TbcChannel>, ps: seq<Program>, l: Listing)
    ensures l in Grouped(cs, ps) <==>
      exists i, j :: 0 <= i < |cs| && 0 <= j < |ps| && ps[j].channelId == Some(IdOf(cs[i])) && l == ListingOf(IdOf(cs[i]), ps[j])
  {
    GroupedIn(cs, ps, l);
    if l in Grouped(cs, ps) {
      var i :| 0 <= i < |cs| && l in FilterMap(ps, Selects(IdOf(cs[i])));
      FilterMapMembers(ps, Selects(IdOf(cs[i])), l);
      var j :| 0 <= j < |ps| && Selects(IdOf(cs[i]))(ps[j]) == Some(l);
      assert ps[j].channelId == Some(IdOf(cs[i])) && l == ListingOf(IdOf(cs[i]), ps[j]);
    }
    if exists i, j :: 0 <= i < |cs| && 0 <= j < |ps| && ps[j].channelId == Some(IdOf(cs[i])) && l == ListingOf(IdOf(cs[i]), ps[j]) {
      var i, j :| 0 <= i < |cs| && 0 <= j < |ps| && ps[j].channelId == Some(IdOf(cs[i])) && l == ListingOf(IdOf(cs[i]), ps[j]);
      assert Selects(IdOf(cs[i]))(ps[j]) == Some(l);
      FilterMapMembers(ps, Selects(IdOf(cs[i])), l);
    }
  }

  lemma {:induction false} GroupedIn(cs: seq<TbcChannel>, ps: seq<Program>, l: Listing)
    ensures l in Grouped(cs, ps) <==> exists i :: 0 <= i < |cs| && l in FilterMap(ps, Selects(IdOf(cs[i])))
  {
    if |cs| > 0 {
      GroupedIn(cs[1..], ps, l);
      if exists i :: 0 <= i < |cs| && l in FilterMap(ps, Selects(IdOf(cs[i]))) {
        var i :| 0 <= i < |cs| && l in FilterMap(ps, Selects(IdOf(cs[i])));
        if i > 0 {
          assert cs[1..][i - 1] == cs[i];
        }
      }
    }
  }

  /** What `main` writes: the guide of the channels and programmes when both are
      non-empty and an empty guide otherwise; after a failure, an empty guide only
      when no earlier file exists (`None`: nothing is written). */
  function MainDocument(r: Result<(seq<TbcChannel>, seq<Program>)>, fileExists: bool): Option<Element>
    requires r.Ok? ==> AllTimed(r.value.1)
  {
    match r
    case Raised(_) => if fileExists then None else Some(GenerateXmltv([], []))
    case Ok((cs, ps)) => if |cs| > 0 && |ps| > 0 then Some(GenerateXmltv(cs, ps)) else Some(GenerateXmltv([], []))
  }

  /** The run as a whole: a file is left alone only when the week overflows and a
      file already exists; every programme written belongs to a listed channel
      outside the skipped range and starts within the six days. */
  lemma MainSound(channels: seq<TbcChannel>, today: Date,
                  fetch: (string, nat) -> Response<seq<seq<ScheduleItem>>>, fileExists: bool, l: Listing)
    requires InRange(today)
    ensures var r := GetTbcEpg(channels, today, fetch);
      && (r.Ok? ==> AllTimed(r.value.1))
      && (MainDocument(r, fileExists).None? <==> fileExists && |channels| > 0 && !InRange(AddDays(today, Days - 1)))
      && (MainDocument(r, fileExists).Some? && l in Listings(MainDocument(r, fileExists).value) ==>
            && l.channel !in SkipIds
            && (exists i :: 0 <= i < |channels| && l.channel == IdOf(channels[i]))
            && exists d: nat :: d < Days && l.start.date == AddDays(today, d))
  {
    var r := GetTbcEpg(channels, today, fetch);
    GetTbcEpgSound(channels, today, fetch);
    if r.Ok? {
      var (cs, ps) := r.value;
      var out := MainDocument(r, fileExists);
      var shown := if |cs| > 0 && |ps| > 0 then cs else [];
      var written := if |cs| > 0 && |ps| > 0 then ps else [];
      assert out.value == GenerateXmltv(shown, written);
      GenerateXmltvListings(shown, written);
      if l in Listings(out.value) {
        GroupedMembers(shown, written, l);
        var i, j :| 0 <= i < |shown| && 0 <= j < |written| && written[j].channelId == Some(IdOf(shown[i]))
                    && l == ListingOf(IdOf(shown[i]), written[j]);
        assert written[j] in ps;
      }
    } else {
      GenerateXmltvListings([], []);
    }
  }
}
